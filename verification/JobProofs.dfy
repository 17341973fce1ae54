/**
 What happens to a job: every execution answers to a claim of its own, a killed running job embeds
 nothing more, and a killed queued one is not executed.
 */
module JobProofs {
  import opened Wrappers
  import opened StatusStore
  import opened IndexProtocol
  import opened LeaseProofs
  import opened LeaseBoundary

  lemma RunsTwo(c: Config, w: World, a: Event, b: Event)
    requires ValidConfig(c) && Enabled(c, w, a) && Enabled(c, Apply(c, w, a), b)
    ensures Runs(c, w, [a, b]) && After(c, w, [a, b]) == Apply(c, Apply(c, w, a), b)
  {
    hide Apply, Enabled;
    var v := Apply(c, w, a);
    assert Runs(c, Apply(c, v, b), []) && After(c, Apply(c, v, b), []) == Apply(c, v, b);
    assert [b][1..] == [] && Runs(c, v, [b]) && After(c, v, [b]) == Apply(c, v, b);
    assert [a, b][1..] == [b];
  }

  lemma RunsThree(c: Config, w: World, a: Event, b: Event, d: Event)
    requires ValidConfig(c) && Enabled(c, w, a) && Enabled(c, Apply(c, w, a), b)
    requires Enabled(c, Apply(c, Apply(c, w, a), b), d)
    ensures Runs(c, w, [a, b, d]) && After(c, w, [a, b, d]) == Apply(c, Apply(c, Apply(c, w, a), b), d)
  {
    hide Apply, Enabled;
    RunsTwo(c, Apply(c, w, a), b, d);
    assert [a, b, d][1..] == [b, d];
  }

  // ---- One execution per claim ----

  /** Steps outside the worker loop. */
  predicate Outside(e: Event) {
    e.EnqClaim? || e.EnqSave? || e.EnqPut? || e.Kill? || e.Refresh? || e.Crash?
  }

  function InHand(work: Work, run: string): nat {
    if (work.Held? || work.Unowned? || work.Entered?) && work.run == run then 1 else 0
  }

  function InClaim(enq: Enq, run: string): nat {
    if !enq.NoEnq? && enq.run == run then 1 else 0
  }

  /** Every claim of `run` is in flight, queued, in hand, executed or dropped. */
  predicate Accounted(p: Proc, run: string) {
    p.claimed[run]
      == p.started[run] + p.dropped[run] + multiset(p.queue)[run] + InHand(p.work, run) + InClaim(p.enq, run)
  }

  /** What was queued is what was dequeued and what is still queued, in that order. */
  predicate InOrder(p: Proc) {
    p.put == p.taken + p.queue
  }

  lemma HeadCounts(queue: seq<string>, run: string)
    requires queue != []
    ensures multiset(queue)[run] == multiset(queue[1..])[run] + if queue[0] == run then 1 else 0
  {
    assert queue == [queue[0]] + queue[1..];
  }

  lemma TakeAccounted(c: Config, w: World, pid: nat, run: string)
    requires ValidConfig(c) && Enabled(c, w, Take(pid)) && Accounted(w.procs[pid], run)
    ensures pid in Apply(c, w, Take(pid)).procs && Accounted(Apply(c, w, Take(pid)).procs[pid], run)
  {
    hide StopAfter;
    HeadCounts(w.procs[pid].queue, run);
  }

  lemma ClaimAccounted(c: Config, w: World, pid: nat, claim: string, force: bool, run: string)
    requires ValidConfig(c) && Enabled(c, w, EnqClaim(pid, claim, force)) && Accounted(w.procs[pid], run)
    ensures var v := Apply(c, w, EnqClaim(pid, claim, force)); pid in v.procs && Accounted(v.procs[pid], run)
  {
    hide StopAfter, Claim, Claimable;
    var p := w.procs[pid];
    assert (p.claimed + multiset{claim})[run] == p.claimed[run] + (if claim == run then 1 else 0);
  }

  lemma PutAccounted(c: Config, w: World, pid: nat, run: string)
    requires ValidConfig(c) && Enabled(c, w, EnqPut(pid)) && Accounted(w.procs[pid], run)
    ensures var v := Apply(c, w, EnqPut(pid)); pid in v.procs && Accounted(v.procs[pid], run)
  {
    hide StopAfter;
    PutCounts(w.procs[pid].queue, w.procs[pid].enq.run, run);
  }

  lemma OutsideAccounted(c: Config, w: World, e: Event, run: string)
    requires ValidConfig(c) && Enabled(c, w, e) && Outside(e) && !e.EnqClaim? && !e.EnqPut?
    requires Accounted(w.procs[e.pid], run)
    ensures e.pid in Apply(c, w, e).procs && Accounted(Apply(c, w, e).procs[e.pid], run)
  {
    hide StopAfter, FailureLimit, Save, SaveState, ActiveIn, InHand;
  }

  lemma PutCounts(queue: seq<string>, put: string, run: string)
    ensures multiset(queue + [put])[run] == multiset(queue)[run] + (if put == run then 1 else 0)
  {
  }

  /** An abandoned execution was either counted as begun or is counted as dropped. */
  lemma StopAccounted(p: Proc, run: string)
    requires (p.work.Unowned? || Executing(p.work)) && Accounted(p, run)
    ensures Accounted(Stop(p), run) && Accounted(KilledProc(p), run)
  {
  }

  lemma EntryAccounted(c: Config, w: World, e: Event, run: string)
    requires ValidConfig(c) && Enabled(c, w, e) && (e.CheckOwned? || e.TryAgain? || e.Start?)
    requires Accounted(w.procs[e.pid], run)
    ensures e.pid in Apply(c, w, e).procs && Accounted(Apply(c, w, e).procs[e.pid], run)
  {
    hide StopAfter, FailureLimit, Save, SaveState, KilledRows, Reacquire, Reacquirable, IsOwned, Stop, KilledProc;
    if !e.CheckOwned? {
      StopAccounted(w.procs[e.pid], run);
    }
  }

  lemma BeatAccounted(c: Config, w: World, e: Event, run: string)
    requires ValidConfig(c) && Enabled(c, w, e) && (e.Beat? || e.BeatError?) && Accounted(w.procs[e.pid], run)
    ensures e.pid in Apply(c, w, e).procs && Accounted(Apply(c, w, e).procs[e.pid], run)
  {
    hide StopAfter, FailureLimit, Heartbeat, Renewed, Stop;
    StopAccounted(w.procs[e.pid], run);
  }

  lemma WorkerAccounted(c: Config, w: World, e: Event, run: string)
    requires ValidConfig(c) && Enabled(c, w, e)
    requires e.Embed? || e.Flush? || e.KillStop? || e.Finish? || e.ClosePop? || e.LetGo?
    requires Accounted(w.procs[e.pid], run)
    ensures e.pid in Apply(c, w, e).procs && Accounted(Apply(c, w, e).procs[e.pid], run)
  {
    hide StopAfter, FailureLimit, Save, SaveState, KilledRows, Release, Stop, KilledProc;
    if Executing(w.procs[e.pid].work) {
      StopAccounted(w.procs[e.pid], run);
    }
  }

  lemma StepAccounted(c: Config, w: World, e: Event, run: string)
    requires ValidConfig(c) && Enabled(c, w, e) && !e.Tick? && Accounted(w.procs[e.pid], run)
    ensures e.pid in Apply(c, w, e).procs && Accounted(Apply(c, w, e).procs[e.pid], run)
  {
    hide Accounted, Apply;
    if e.Take? {
      TakeAccounted(c, w, e.pid, run);
    } else if e.EnqClaim? {
      ClaimAccounted(c, w, e.pid, e.run, e.force, run);
    } else if e.EnqPut? {
      PutAccounted(c, w, e.pid, run);
    } else if Outside(e) {
      OutsideAccounted(c, w, e, run);
    } else if e.CheckOwned? || e.TryAgain? || e.Start? {
      EntryAccounted(c, w, e, run);
    } else if e.Beat? || e.BeatError? {
      BeatAccounted(c, w, e, run);
    } else {
      WorkerAccounted(c, w, e, run);
    }
  }

  lemma StepInOrder(c: Config, w: World, e: Event)
    requires ValidConfig(c) && Enabled(c, w, e) && !e.Tick? && InOrder(w.procs[e.pid])
    ensures e.pid in Apply(c, w, e).procs && InOrder(Apply(c, w, e).procs[e.pid])
  {
    hide StopAfter, FailureLimit, Save, Claim, Release, Heartbeat, Reacquire, Reacquirable, Renewed, IsOwned;
    var p := w.procs[e.pid];
    if e.Take? {
      assert p.taken + p.queue == (p.taken + [p.queue[0]]) + p.queue[1..];
    } else if e.EnqPut? {
      assert (p.taken + p.queue) + [p.enq.run] == p.taken + (p.queue + [p.enq.run]);
    }
  }

  predicate AllAccounted(w: World, run: string) {
    forall q | q in w.procs :: Accounted(w.procs[q], run) && InOrder(w.procs[q])
  }

  lemma StepAllAccounted(c: Config, w: World, e: Event, run: string)
    requires ValidConfig(c) && Enabled(c, w, e) && AllAccounted(w, run)
    ensures AllAccounted(Apply(c, w, e), run)
  {
    hide Accounted, InOrder, Apply, Enabled;
    OnlyItsProcess(c, w, e);
    if !e.Tick? {
      assert e.pid in w.procs by { ItsProcess(c, w, e); }
      StepAccounted(c, w, e, run);
      StepInOrder(c, w, e);
    }
  }

  lemma {:induction false} RunAccounted(c: Config, w: World, es: seq<Event>, run: string)
    requires ValidConfig(c) && Runs(c, w, es) && AllAccounted(w, run)
    ensures AllAccounted(After(c, w, es), run)
    decreases |es|
  {
    hide AllAccounted, Apply, Enabled;
    if es != [] {
      StepAllAccounted(c, w, es[0], run);
      RunAccounted(c, Apply(c, w, es[0]), es[1..], run);
    }
  }

  lemma ItsProcess(c: Config, w: World, e: Event)
    requires Enabled(c, w, e) && !e.Tick?
    ensures e.pid in w.procs && w.procs[e.pid].alive
  {
  }

  lemma OnlyItsProcess(c: Config, w: World, e: Event)
    requires ValidConfig(c) && Enabled(c, w, e)
    ensures var v := Apply(c, w, e);
            v.procs.Keys == w.procs.Keys
            && forall q | q in w.procs && (e.Tick? || q != e.pid) :: v.procs[q] == w.procs[q]
  {
    hide StepProc;
  }

  /** A process never executes a run more often than it claimed it, and dequeues in queueing order. */
  lemma AtMostOncePerClaim(c: Config, start: World, es: seq<Event>, pid: nat, run: string)
    requires ValidConfig(c) && Initial(start) && Runs(c, start, es) && pid in After(c, start, es).procs
    ensures var p := After(c, start, es).procs[pid];
            p.started[run] <= p.claimed[run] && p.put == p.taken + p.queue
  {
    RunAccounted(c, start, es, run);
    assert Accounted(After(c, start, es).procs[pid], run) && InOrder(After(c, start, es).procs[pid]);
  }

  /** A queue entry whose row is not in progress any more is dropped: no save, no execution. */
  lemma TerminalEntryStartsNothing(c: Config, w: World, pid: nat)
    requires ValidConfig(c) && pid in w.procs && w.procs[pid].alive && w.procs[pid].work.Held?
    requires !ActiveIn(w.rows, w.procs[pid].work.run)
    ensures Runs(c, w, [CheckOwned(pid), TryAgain(pid)])
    ensures var v := After(c, w, [CheckOwned(pid), TryAgain(pid)]);
            && v.rows == w.rows
            && pid in v.procs && v.procs[pid].work.Closing? && v.procs[pid].started == w.procs[pid].started
  {
    hide StopAfter, FailureLimit, Runs, After;
    RunsTwo(c, w, CheckOwned(pid), TryAgain(pid));
  }

  // ---- Killing a running job ----

  /** Indexing with the kill flag set, on a live lease, and with no claim in flight that would clear it. */
  predicate Doomed(c: Config, w: World, pid: nat, run: string)
    requires ValidConfig(c)
  {
    && IndexingRun(w, pid, run)
    && run in w.procs[pid].killed && w.procs[pid].enq != Claimed(run)
    && Timing(c, w.now, w.procs[pid].work.beats, StopAfter(c))
    && Guarded(w.rows, run, pid, w.procs[pid].work.beats.last + StopAfter(c))
    && w.rows[run].state == Running
  }

  /** Killing a job that is rightfully indexing dooms it. */
  lemma KillDooms(c: Config, w: World, pid: nat, run: string)
    requires ValidConfig(c) && AllSafe(c, w, StopAfter(c)) && Rightful(w, pid, run, StopAfter(c))
    requires w.rows[run].state == Running && w.procs[pid].enq != Claimed(run)
    ensures Enabled(c, w, Kill(pid, run)) && Doomed(c, Apply(c, w, Kill(pid, run)), pid, run)
  {
    assert Safe(w, pid, StopAfter(c)) && InTime(c, w, pid, StopAfter(c));
  }

  /** The flag stays until the execution is over, whatever anyone does. */
  lemma DoomedStep(c: Config, w: World, e: Event, pid: nat, run: string)
    requires ValidConfig(c) && Enabled(c, w, e) && Doomed(c, w, pid, run)
    ensures e != Embed(pid)
    ensures IndexingRun(Apply(c, w, e), pid, run) ==> Doomed(c, Apply(c, w, e), pid, run)
  {
    if e.Tick? {
      hide StopAfter;
      assert Quiet(w.procs[pid], w.now);
    } else {
      hide Apply, IndexingRun, StopAfter, Timing;
      if e.pid != pid {
        hide Enabled;
        OthersLeaveDoomed(c, w, e, pid, run);
      } else if e.Beat? {
        DoomedBeat(c, w, pid, run);
      } else if e.BeatError? {
        DoomedBeatError(c, w, pid, run);
      } else {
        assert e != Embed(pid) by { NoEmbedding(c, w, pid, run); }
        DoomedOwnStep(c, w, e, pid, run);
      }
    }
  }

  lemma NoEmbedding(c: Config, w: World, pid: nat, run: string)
    requires ValidConfig(c) && Doomed(c, w, pid, run)
    ensures !Enabled(c, w, Embed(pid))
  {
    hide Timing, StopAfter;
  }

  lemma OthersLeaveDoomed(c: Config, w: World, e: Event, pid: nat, run: string)
    requires ValidConfig(c) && Enabled(c, w, e) && !e.Tick? && e.pid != pid && Doomed(c, w, pid, run)
    ensures Doomed(c, Apply(c, w, e), pid, run)
  {
    hide StopAfter, FailureLimit, Stop, KilledProc;
    OthersKeepGuard(c, w, e, run, pid, w.procs[pid].work.beats.last + StopAfter(c));
  }

  lemma DoomedOwnStep(c: Config, w: World, e: Event, pid: nat, run: string)
    requires ValidConfig(c) && Enabled(c, w, e) && !e.Tick? && e.pid == pid && Doomed(c, w, pid, run)
    requires !e.Beat? && !e.BeatError?
    ensures IndexingRun(Apply(c, w, e), pid, run) ==> Doomed(c, Apply(c, w, e), pid, run)
  {
    hide StopAfter, FailureLimit, Timing, Stop, KilledProc;
    NowBeforeLimit(c, w, pid, run);
    Abandons(w.procs[pid]);
  }

  lemma NowBeforeLimit(c: Config, w: World, pid: nat, run: string)
    requires ValidConfig(c) && Doomed(c, w, pid, run)
    ensures w.now <= w.procs[pid].work.beats.last + StopAfter(c)
  {
  }

  lemma DoomedBeat(c: Config, w: World, pid: nat, run: string)
    requires ValidConfig(c) && Enabled(c, w, Beat(pid)) && Doomed(c, w, pid, run)
    ensures IndexingRun(Apply(c, w, Beat(pid)), pid, run) ==> Doomed(c, Apply(c, w, Beat(pid)), pid, run)
  {
    hide StopAfter, FailureLimit, Timing, Stop;
    var b := w.procs[pid].work.beats;
    StopAfterBounds(c);
    EnteredEarlier(c, w, pid, run);
    Abandons(w.procs[pid]);
    FreshTiming(c, w.now, Beats(b.entered, w.now, w.now + c.beat, 1, b.left, true, true), StopAfter(c));
  }

  lemma EnteredEarlier(c: Config, w: World, pid: nat, run: string)
    requires ValidConfig(c) && Doomed(c, w, pid, run)
    ensures w.procs[pid].work.beats.entered <= w.now
  {
  }

  lemma DoomedBeatError(c: Config, w: World, pid: nat, run: string)
    requires ValidConfig(c) && Enabled(c, w, BeatError(pid)) && Doomed(c, w, pid, run)
    ensures IndexingRun(Apply(c, w, BeatError(pid)), pid, run) ==> Doomed(c, Apply(c, w, BeatError(pid)), pid, run)
  {
    hide StopAfter, FailureLimit;
    var b := w.procs[pid].work.beats;
    TriesPositive(b.tries, c.beat);
    if w.now - b.last < FailureLimit(c) {
      NextBeatInTime(c, b.tries);
    }
  }

  /** Once doomed, an execution begins no further embedding. */
  lemma {:induction false} KilledJobEmbedsNoMore(c: Config, w: World, es: seq<Event>, pid: nat, run: string, i: nat)
    requires ValidConfig(c) && Runs(c, w, es) && Doomed(c, w, pid, run) && i < |es|
    requires forall j | 0 <= j <= i :: Runs(c, w, es[..j]) && IndexingRun(After(c, w, es[..j]), pid, run)
    ensures es[i] != Embed(pid)
    decreases i
  {
    hide Doomed;
    DoomedStep(c, w, es[0], pid, run);
    if i > 0 {
      var v := Apply(c, w, es[0]);
      assert es[..1][1..] == [] && es[..1][0] == es[0];
      assert After(c, w, es[..1]) == v;
      forall j | 0 <= j <= i - 1
        ensures Runs(c, v, es[1..][..j]) && IndexingRun(After(c, v, es[1..][..j]), pid, run)
      {
        assert es[..j + 1][1..] == es[1..][..j] && es[..j + 1][0] == es[0];
        assert Runs(c, w, es[..j + 1]);
        assert After(c, w, es[..j + 1]) == After(c, v, es[1..][..j]);
      }
      KilledJobEmbedsNoMore(c, v, es[1..], pid, run, i - 1);
    }
  }

  /** Stopping a killed job costs the worker nothing else: it is idle again with the rest of its queue intact. */
  lemma KilledWorkerMovesOn(c: Config, w: World, pid: nat, run: string)
    requires ValidConfig(c) && Doomed(c, w, pid, run)
    ensures Runs(c, w, [KillStop(pid), ClosePop(pid), LetGo(pid)])
    ensures var v := After(c, w, [KillStop(pid), ClosePop(pid), LetGo(pid)]);
            && pid in v.procs && v.procs[pid].alive && v.procs[pid].work == Idle
            && v.procs[pid].queue == w.procs[pid].queue
            && v.procs[pid].killed == w.procs[pid].killed - {run}
            && run in v.rows && v.rows[run].owner == None
            && (RecordsKill(w.procs[pid], run) ==> v.rows[run].state == Failed)
            && (v.procs[pid].queue != [] ==> Enabled(c, v, Take(pid)))
  {
    hide Timing, StopAfter, FailureLimit, Runs, After;
    RunsThree(c, w, KillStop(pid), ClosePop(pid), LetGo(pid));
  }

  // ---- Killing a queued job ----

  /** Recorded as over, owned by nobody else, and not in this process's hands. */
  predicate ParkedRow(rows: Rows, pid: nat, run: string) {
    run in rows && !Active(rows[run]) && (rows[run].owner == Some(pid) || rows[run].owner == None)
  }

  predicate Parked(w: World, pid: nat, run: string) {
    && ParkedRow(w.rows, pid, run)
    && pid in w.procs
    && !(Executing(w.procs[pid].work) && w.procs[pid].work.run == run)
    && w.procs[pid].enq != Claimed(run)
  }

  /** A kill that answers `dequeued` for a job this process owns and has not begun parks it. */
  lemma KillParks(c: Config, w: World, pid: nat, run: string)
    requires ValidConfig(c) && pid in w.procs && w.procs[pid].alive
    requires OwnedIn(w.rows, run, pid) && w.rows[run].state == Pending
    requires w.procs[pid].enq != Claimed(run) && !(Executing(w.procs[pid].work) && w.procs[pid].work.run == run)
    ensures Enabled(c, w, Kill(pid, run))
    ensures var v := Apply(c, w, Kill(pid, run)); Parked(v, pid, run) && v.rows[run].state == Failed
  {
  }

  /** Another process leaves a parked row parked: it owns nothing there, and claims nothing. */
  lemma OthersLeaveParked(c: Config, w: World, e: Event, pid: nat, run: string)
    requires ValidConfig(c) && Enabled(c, w, e) && !e.Tick? && e.pid != pid && Parked(w, pid, run)
    requires !(e.EnqClaim? && e.run == run)
    ensures ParkedRow(Apply(c, w, e).rows, pid, run)
  {
    hide StopAfter, FailureLimit, Stop, KilledProc;
  }

  lemma OutsideLeavesParked(c: Config, w: World, e: Event, pid: nat, run: string)
    requires ValidConfig(c) && Enabled(c, w, e) && Outside(e) && e.pid == pid && Parked(w, pid, run)
    requires !(e.EnqClaim? && e.run == run)
    ensures Parked(Apply(c, w, e), pid, run)
    ensures Apply(c, w, e).procs[pid].started[run] == w.procs[pid].started[run]
  {
    hide StopAfter, FailureLimit;
  }

  lemma EntryLeavesParked(c: Config, w: World, e: Event, pid: nat, run: string)
    requires ValidConfig(c) && Enabled(c, w, e) && (e.Take? || e.CheckOwned? || e.TryAgain? || e.Start?)
    requires e.pid == pid && Parked(w, pid, run)
    ensures Parked(Apply(c, w, e), pid, run)
    ensures Apply(c, w, e).procs[pid].started[run] == w.procs[pid].started[run]
  {
    hide StopAfter, FailureLimit;
  }

  lemma WorkerLeavesParked(c: Config, w: World, e: Event, pid: nat, run: string)
    requires ValidConfig(c) && Enabled(c, w, e) && !e.Tick? && !Outside(e) && e.pid == pid && Parked(w, pid, run)
    requires !e.Take? && !e.CheckOwned? && !e.TryAgain? && !e.Start?
    ensures Parked(Apply(c, w, e), pid, run)
    ensures Apply(c, w, e).procs[pid].started[run] == w.procs[pid].started[run]
  {
    hide StopAfter, FailureLimit;
  }

  lemma ParkedStep(c: Config, w: World, e: Event, pid: nat, run: string)
    requires ValidConfig(c) && Enabled(c, w, e) && Parked(w, pid, run)
    requires !(e.EnqClaim? && e.run == run)
    ensures Parked(Apply(c, w, e), pid, run)
    ensures Apply(c, w, e).procs[pid].started[run] == w.procs[pid].started[run]
  {
    if e.Tick? {
      hide Enabled;
    } else {
      hide Apply, Enabled;
      OnlyItsProcess(c, w, e);
      if e.pid != pid {
        OthersLeaveParked(c, w, e, pid, run);
      } else if Outside(e) {
        OutsideLeavesParked(c, w, e, pid, run);
      } else if e.Take? || e.CheckOwned? || e.TryAgain? || e.Start? {
        EntryLeavesParked(c, w, e, pid, run);
      } else {
        WorkerLeavesParked(c, w, e, pid, run);
      }
    }
  }

  /** Until somebody claims it anew, a parked job is never executed. */
  lemma {:induction false} ParkedJobStaysDead(c: Config, w: World, es: seq<Event>, pid: nat, run: string)
    requires ValidConfig(c) && Runs(c, w, es) && Parked(w, pid, run)
    requires forall i | 0 <= i < |es| :: !(es[i].EnqClaim? && es[i].run == run)
    ensures var v := After(c, w, es);
            Parked(v, pid, run) && v.procs[pid].started[run] == w.procs[pid].started[run]
    decreases |es|
  {
    hide Parked;
    if es != [] {
      ParkedStep(c, w, es[0], pid, run);
      assert forall i | 0 <= i < |es[1..]| :: es[1..][i] == es[i + 1];
      ParkedJobStaysDead(c, Apply(c, w, es[0]), es[1..], pid, run);
    }
  }
}
