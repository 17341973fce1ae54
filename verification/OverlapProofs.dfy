/**
 Which kills let two processes index one run. A kill that finds PENDING marks the row FAILED, which anybody may
 claim; whether that takes the row from an execution which goes on is there to be read off before the kill.
 */
module OverlapProofs {
  import opened StatusStore
  import opened IndexProtocol
  import opened LeaseProofs
  import opened LeaseBoundary

  predicate Overlapping(w: World, run: string, h: int) {
    exists a, b | a in w.procs && b in w.procs :: a != b && Rightful(w, a, run, h) && Rightful(w, b, run, h)
  }

  /** Some way on, with no further kill of that kind, ends with two rightful workers on the run. */
  ghost predicate CanOverlap(c: Config, w: World, run: string, h: int)
    requires ValidConfig(c)
  {
    exists es :: Runs(c, w, es) && CalmRun(c, w, es, h) && Overlapping(After(c, w, es), run, h)
  }

  predicate OtherAlive(w: World, pid: nat) {
    exists q | q in w.procs :: q != pid && w.procs[q].alive
  }

  // ---- A process can always work itself free ----

  function EnqRank(enq: Enq): nat {
    match enq
    case NoEnq => 0
    case Saved(_) => 1
    case Claimed(_) => 2
  }

  /** What the process does next if nothing new is asked of it. */
  function NextStep(pid: nat, p: Proc): Event {
    if p.enq.Claimed? then EnqSave(pid)
    else if p.enq.Saved? then EnqPut(pid)
    else if p.work == Idle then Take(pid)
    else NextMove(pid, p.work)
  }

  /** The row is over and another process's. */
  predicate Foreign(rows: Rows, run: string, pid: nat) {
    run in rows && !Active(rows[run]) && !OwnedIn(rows, run, pid)
  }

  /** One step of `pid` that leaves the others, the clock and the row of `run` alone. */
  predicate StepAside(w: World, v: World, pid: nat, run: string) {
    && v.now == w.now && pid in v.procs && v.procs[pid].alive && OthersUntouched(w, v, pid)
    && run in w.rows && run in v.rows && v.rows[run] == w.rows[run]
  }

  lemma EnqueueOn(c: Config, w: World, pid: nat, run: string)
    requires ValidConfig(c) && pid in w.procs && w.procs[pid].alive && w.procs[pid].enq != NoEnq
    requires Foreign(w.rows, run, pid)
    ensures var e := NextStep(pid, w.procs[pid]);
            && Enabled(c, w, e) && NoFault(e) && !e.Kill? && StepAside(w, Apply(c, w, e), pid, run)
            && EnqRank(Apply(c, w, e).procs[pid].enq) < EnqRank(w.procs[pid].enq)
  {
    hide StopAfter, Lapsed;
  }

  /** A step of the worker that brings it nearer to idling. */
  predicate WorkedOn(w: World, v: World, pid: nat)
    requires pid in w.procs && pid in v.procs
  {
    && v.procs[pid].enq == w.procs[pid].enq
    && (|v.procs[pid].queue| < |w.procs[pid].queue|
        || (v.procs[pid].queue == w.procs[pid].queue && Rank(v.procs[pid].work) < Rank(w.procs[pid].work)))
  }

  /** The worker's next step leaves everything else alone and brings it nearer to idling. */
  predicate Nearing(c: Config, w: World, pid: nat, run: string)
    requires ValidConfig(c) && pid in w.procs
  {
    var e := NextStep(pid, w.procs[pid]);
    && Enabled(c, w, e) && NoFault(e) && !e.Kill? && StepAside(w, Apply(c, w, e), pid, run)
    && WorkedOn(w, Apply(c, w, e), pid)
  }

  lemma TakeOn(c: Config, w: World, pid: nat, run: string)
    requires ValidConfig(c) && pid in w.procs && w.procs[pid].alive && w.procs[pid].enq == NoEnq
    requires w.procs[pid].work == Idle && w.procs[pid].queue != []
    requires Foreign(w.rows, run, pid)
    ensures Nearing(c, w, pid, run)
  {
    hide StopAfter, Lapsed;
  }

  lemma EntryOn(c: Config, w: World, pid: nat, run: string)
    requires ValidConfig(c) && pid in w.procs && w.procs[pid].alive && w.procs[pid].enq == NoEnq
    requires w.procs[pid].work.Held? || w.procs[pid].work.Unowned?
    requires Foreign(w.rows, run, pid)
    ensures Nearing(c, w, pid, run)
  {
    hide StopAfter, Lapsed;
  }

  lemma StartOn(c: Config, w: World, pid: nat, run: string)
    requires ValidConfig(c) && pid in w.procs && w.procs[pid].alive && w.procs[pid].enq == NoEnq
    requires w.procs[pid].work.Entered?
    requires Foreign(w.rows, run, pid)
    ensures Nearing(c, w, pid, run)
  {
    hide StopAfter, Lapsed;
  }

  lemma FinishOn(c: Config, w: World, pid: nat, run: string)
    requires ValidConfig(c) && pid in w.procs && w.procs[pid].alive && w.procs[pid].enq == NoEnq
    requires w.procs[pid].work.Indexing?
    requires Foreign(w.rows, run, pid)
    ensures Nearing(c, w, pid, run)
  {
    hide StopAfter, Lapsed;
  }

  lemma CloseOn(c: Config, w: World, pid: nat, run: string)
    requires ValidConfig(c) && pid in w.procs && w.procs[pid].alive && w.procs[pid].enq == NoEnq
    requires w.procs[pid].work.Closing? || w.procs[pid].work.Releasing?
    requires Foreign(w.rows, run, pid)
    ensures Nearing(c, w, pid, run)
  {
    hide StopAfter, Lapsed;
  }

  lemma WorkerOn(c: Config, w: World, pid: nat, run: string)
    requires ValidConfig(c) && pid in w.procs && w.procs[pid].alive && w.procs[pid].enq == NoEnq
    requires w.procs[pid].work != Idle || w.procs[pid].queue != []
    requires Foreign(w.rows, run, pid)
    ensures Nearing(c, w, pid, run)
  {
    hide Nearing, Foreign;
    match w.procs[pid].work {
      case Idle => TakeOn(c, w, pid, run);
      case Held(_) => EntryOn(c, w, pid, run);
      case Unowned(_) => EntryOn(c, w, pid, run);
      case Entered(_, _) => StartOn(c, w, pid, run);
      case Indexing(_, _) => FinishOn(c, w, pid, run);
      case _ => CloseOn(c, w, pid, run);
    }
  }

  /** Left to itself a process ends up with nothing to do, having touched neither the others nor a foreign row. */
  lemma {:induction false} WorkOff(c: Config, start: World, es: seq<Event>, pid: nat, run: string)
    returns (more: seq<Event>)
    requires ValidConfig(c) && Runs(c, start, es) && KillFree(es) && FaultFree(es)
    requires var w := After(c, start, es);
             pid in w.procs && w.procs[pid].alive && Foreign(w.rows, run, pid)
    ensures Runs(c, start, more) && KillFree(more) && FaultFree(more)
    ensures Spare(After(c, start, more), pid) && StepAside(After(c, start, es), After(c, start, more), pid, run)
    decreases var p := After(c, start, es).procs[pid]; EnqRank(p.enq),
              |After(c, start, es).procs[pid].queue|, Rank(After(c, start, es).procs[pid].work)
  {
    hide Runs, After, Apply, Enabled, KillFree, FaultFree, Rank, EnqRank, NextStep;
    var w := After(c, start, es);
    var p := w.procs[pid];
    more := es;
    if p.enq != NoEnq || p.work != Idle || p.queue != [] {
      if p.enq != NoEnq {
        EnqueueOn(c, w, pid, run);
      } else {
        WorkerOn(c, w, pid, run);
      }
      more := OneMore(c, start, es, NextStep(pid, p));
      more := WorkOff(c, start, more, pid, run);
    }
  }

  // ---- What a freeing kill allows ----

  /** The execution the kill let go on takes what steps it still needs to index. */
  lemma GoOn(c: Config, start: World, es: seq<Event>, pid: nat, run: string) returns (more: seq<Event>)
    requires ValidConfig(c) && Runs(c, start, es) && KillFree(es) && FaultFree(es)
    requires var w := After(c, start, es);
             && pid in w.procs && w.procs[pid].alive && Executing(w.procs[pid].work) && w.procs[pid].work.run == run
             && (w.procs[pid].work.Indexing? || w.procs[pid].enq == Claimed(run))
    ensures Runs(c, start, more) && KillFree(more) && FaultFree(more)
    ensures var w, v := After(c, start, es), After(c, start, more);
            && OthersUntouched(w, v, pid) && IndexingRun(v, pid, run)
            && v.procs[pid].work.beats == w.procs[pid].work.beats
  {
    hide StopAfter, Runs, After, KillFree, FaultFree, SaveState, Save;
    more := es;
    if After(c, start, es).procs[pid].work.Entered? {
      more := OneMore(c, start, more, EnqSave(pid));
      more := OneMore(c, start, more, Start(pid));
    }
  }

  /** After a kill that frees the row, any other live process can be handed the run, and both index it. */
  lemma FreedOverlaps(c: Config, w: World, pid: nat, run: string, q: nat, h: int) returns (es: seq<Event>)
    requires ValidConfig(c) && Patience(c, h) && pid in w.procs && w.procs[pid].alive && KillFrees(w, pid, run, h)
    requires q in w.procs && q != pid && w.procs[q].alive
    ensures Enabled(c, w, Kill(pid, run))
    ensures var k := Apply(c, w, Kill(pid, run));
            && Runs(c, k, es) && KillFree(es) && FaultFree(es) && CalmRun(c, k, es, h)
            && Rightful(After(c, k, es), pid, run, h) && Rightful(After(c, k, es), q, run, h)
  {
    hide FailureLimit, Runs, After, KillFree, FaultFree, CalmRun;
    PatienceBounds(c, h);
    hide StopAfter, Patience;
    KillFreesRow(c, w, pid, run);
    var k := Apply(c, w, Kill(pid, run));
    hide Apply, Enabled;
    NothingYet(c, k);
    var a := WorkOff(c, k, [], q, run);
    var b := HandOver(c, k, a, q, run);
    es := GoOn(c, k, b, pid, run);
    KillFreeIsCalm(c, k, es, h);
  }

  lemma BothOverlap(w: World, run: string, a: nat, b: nat, h: int)
    requires a != b && Rightful(w, a, run, h) && Rightful(w, b, run, h)
    ensures Overlapping(w, run, h)
  {
  }

  // ---- ... and only then ----

  lemma {:induction false} DeadStaysDead(c: Config, w: World, es: seq<Event>, q: nat)
    requires ValidConfig(c) && Runs(c, w, es)
    ensures q in After(c, w, es).procs ==> q in w.procs && (After(c, w, es).procs[q].alive ==> w.procs[q].alive)
    decreases |es|
  {
    hide Apply;
    if es != [] {
      StepLeavesDead(c, w, es[0], q);
      DeadStaysDead(c, Apply(c, w, es[0]), es[1..], q);
    }
  }

  lemma StepLeavesDead(c: Config, w: World, e: Event, q: nat)
    requires ValidConfig(c) && Enabled(c, w, e)
    ensures var v := Apply(c, w, e); q in v.procs ==> q in w.procs && (v.procs[q].alive ==> w.procs[q].alive)
  {
    hide StepProc;
  }

  lemma NoneOverlaps(c: Config, w: World, run: string, h: int)
    requires ValidConfig(c) && AllSafe(c, w, h)
    ensures !Overlapping(w, run, h)
  {
    hide AllSafe, Rightful;
    forall a, b | a in w.procs && b in w.procs && Rightful(w, a, run, h) && Rightful(w, b, run, h) ensures a == b {
      OnlyOneIsRightful(c, w, run, a, b, h);
    }
  }

  lemma SafeCannotOverlap(c: Config, w: World, run: string, h: int)
    requires ValidConfig(c) && Patience(c, h) && AllSafe(c, w, h)
    ensures !CanOverlap(c, w, run, h)
  {
    hide AllSafe, Patience, Overlapping, CalmRun, Runs, After;
    forall es | Runs(c, w, es) && CalmRun(c, w, es, h) ensures !Overlapping(After(c, w, es), run, h) {
      RunSafe(c, w, es, h);
      NoneOverlaps(c, After(c, w, es), run, h);
    }
  }

  lemma AloneCannotOverlap(c: Config, w: World, pid: nat, run: string, h: int)
    requires ValidConfig(c) && !OtherAlive(w, pid)
    ensures !CanOverlap(c, w, run, h)
  {
    hide CalmRun, Runs, After;
    forall es | Runs(c, w, es) && CalmRun(c, w, es, h) ensures !Overlapping(After(c, w, es), run, h) {
      var v := After(c, w, es);
      forall a | a in v.procs && Rightful(v, a, run, h) ensures a == pid {
        DeadStaysDead(c, w, es, a);
      }
    }
  }

  /**
   In every reachable state, a kill makes it possible that two processes rightfully index the run exactly when
   `KillFrees` says so before it and some other process is alive.
   */
  lemma KillOverlapsIff(c: Config, start: World, es: seq<Event>, pid: nat, run: string, h: int)
    requires ValidConfig(c) && Patience(c, h) && Initial(start) && Runs(c, start, es) && CalmRun(c, start, es, h)
    requires Enabled(c, After(c, start, es), Kill(pid, run))
    ensures var w := After(c, start, es);
            CanOverlap(c, Apply(c, w, Kill(pid, run)), run, h) <==> KillFrees(w, pid, run, h) && OtherAlive(w, pid)
  {
    hide AllSafe, Patience, CalmRun, KillFrees, Runs, After, Overlapping;
    StartsSafe(c, start, h);
    RunSafe(c, start, es, h);
    var w := After(c, start, es);
    var k := Apply(c, w, Kill(pid, run));
    if !OtherAlive(w, pid) {
      KillLeavesDead(c, w, pid, run);
      AloneCannotOverlap(c, k, pid, run, h);
    } else if KillFrees(w, pid, run, h) {
      var q :| q in w.procs && q != pid && w.procs[q].alive;
      var more := FreedOverlaps(c, w, pid, run, q, h);
      BothOverlap(After(c, k, more), run, pid, q, h);
    } else {
      StepSafe(c, w, Kill(pid, run), h);
      SafeCannotOverlap(c, k, run, h);
    }
  }

  lemma StartsSafe(c: Config, start: World, h: int)
    requires ValidConfig(c) && Initial(start)
    ensures AllSafe(c, start, h)
  {
  }

  lemma KillLeavesDead(c: Config, w: World, pid: nat, run: string)
    requires ValidConfig(c) && Enabled(c, w, Kill(pid, run)) && !OtherAlive(w, pid)
    ensures !OtherAlive(Apply(c, w, Kill(pid, run)), pid)
  {
    hide StepProc;
  }

  // ---- Both kinds of such kills come about ----

  /**
   A kill that finds the row back at PENDING under its own worker frees the row for process 1 while process 0
   goes on indexing: both index the run, each having entered on a full lease.
   */
  lemma PendingKillOverlaps(c: Config, run: string) returns (before: seq<Event>, after: seq<Event>)
    requires ValidConfig(c)
    ensures Runs(c, Two(), before) && KillFree(before) && FaultFree(before)
    ensures var w := After(c, Two(), before);
            && Enabled(c, w, Kill(0, run)) && KillFrees(w, 0, run, StopAfter(c)) && w.procs[0].enq != Claimed(run)
            && var k := Apply(c, w, Kill(0, run));
               && Runs(c, k, after) && KillFree(after) && FaultFree(after)
               && Rightful(After(c, k, after), 0, run, StopAfter(c))
               && Rightful(After(c, k, after), 1, run, StopAfter(c))
  {
    hide FailureLimit, Runs, After, KillFree, FaultFree;
    StopAfterBounds(c);
    hide StopAfter;
    before := LateSave(c, Two(), 0, run);
    after := FreedOverlaps(c, After(c, Two(), before), 0, run, 1, StopAfter(c));
  }

  /** A kill inside the round trip of a claim is lifted when the claim returns, and does the same. */
  lemma KillInClaimOverlaps(c: Config, run: string) returns (before: seq<Event>, after: seq<Event>)
    requires ValidConfig(c)
    ensures Runs(c, Two(), before) && KillFree(before) && FaultFree(before)
    ensures var w := After(c, Two(), before);
            && Enabled(c, w, Kill(0, run)) && KillFrees(w, 0, run, StopAfter(c)) && !AtWork(w.procs[0], run)
            && var k := Apply(c, w, Kill(0, run));
               && Runs(c, k, after) && KillFree(after) && FaultFree(after)
               && Rightful(After(c, k, after), 0, run, StopAfter(c))
               && Rightful(After(c, k, after), 1, run, StopAfter(c))
  {
    hide FailureLimit, Runs, After, KillFree, FaultFree;
    StopAfterBounds(c);
    hide StopAfter;
    before := EnterUnderClaim(c, Two(), 0, run);
    after := FreedOverlaps(c, After(c, Two(), before), 0, run, 1, StopAfter(c));
  }
}
