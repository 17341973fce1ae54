/**
 The entry condition of `LeaseProofs` is the right one: for every configuration and every remaining lease it
 rules out, a run of the protocol ends with two processes indexing the same run.
 */
module LeaseBoundary {
  import opened StatusStore
  import opened IndexProtocol
  import opened LeaseProofs

  predicate IndexingRun(w: World, pid: nat, run: string) {
    pid in w.procs && w.procs[pid].alive && w.procs[pid].work.Indexing? && w.procs[pid].work.run == run
  }

  predicate OthersUntouched(w: World, v: World, pid: nat) {
    v.procs.Keys == w.procs.Keys && forall q | q in w.procs && q != pid :: v.procs[q] == w.procs[q]
  }

  function Two(): World {
    World(0, map[], map[0 := NewProc(), 1 := NewProc()])
  }

  predicate KillFree(es: seq<Event>) {
    forall i | 0 <= i < |es| :: !es[i].Kill?
  }

  /** No crash, and no heartbeat that could fail. */
  predicate NoFault(e: Event) {
    !e.Crash? && !e.Beat? && !e.BeatError?
  }

  predicate FaultFree(es: seq<Event>) {
    forall i | 0 <= i < |es| :: NoFault(es[i])
  }

  /** What a run keeps by going on without kills or without faults. */
  predicate AsMild(es: seq<Event>, more: seq<Event>) {
    (KillFree(es) ==> KillFree(more)) && (FaultFree(es) ==> FaultFree(more))
  }

  lemma OneMore(c: Config, start: World, es: seq<Event>, e: Event) returns (more: seq<Event>)
    requires ValidConfig(c) && Runs(c, start, es) && Enabled(c, After(c, start, es), e)
    ensures Runs(c, start, more) && After(c, start, more) == Apply(c, After(c, start, es), e)
    ensures more == es + [e]
    ensures !e.Kill? && KillFree(es) ==> KillFree(more)
    ensures NoFault(e) && FaultFree(es) ==> FaultFree(more)
  {
    more := es + [e];
    assert Runs(c, After(c, start, es), [e]);
    RunsAppend(c, start, es, [e]);
  }

  /** How far the worker is from taking its next queue entry. */
  function Rank(work: Work): nat {
    match work
    case Idle => 0
    case Releasing(_) => 1
    case Closing(_) => 2
    case Indexing(_, _) => 3
    case Entered(_, _) => 4
    case Unowned(_) => 5
    case Held(_) => 6
  }

  /** What the worker does next about the run it has. */
  function NextMove(pid: nat, work: Work): Event
    requires work != Idle
  {
    match work
    case Releasing(_) => LetGo(pid)
    case Closing(_) => ClosePop(pid)
    case Indexing(_, _) => Finish(pid, true)
    case Entered(_, _) => Start(pid)
    case Unowned(_) => TryAgain(pid)
    case Held(_) => CheckOwned(pid)
  }

  /** Claim, save and queue `run`, by a process that is doing nothing else. */
  lemma Enqueue(c: Config, start: World, es: seq<Event>, pid: nat, run: string) returns (more: seq<Event>)
    requires ValidConfig(c) && Runs(c, start, es)
    requires var w := After(c, start, es);
             pid in w.procs && w.procs[pid].alive && w.procs[pid].enq == NoEnq && Claimable(w.rows, run, true, w.now)
    ensures Runs(c, start, more) && AsMild(es, more)
    ensures var w, v := After(c, start, es), After(c, start, more);
            && v.now == w.now && v.rows == Claim(w.rows, run, pid, c.lease, w.now)
            && OthersUntouched(w, v, pid)
            && v.procs[pid].alive && v.procs[pid].enq == NoEnq && v.procs[pid].work == w.procs[pid].work
            && v.procs[pid].queue == w.procs[pid].queue + [run] && v.procs[pid].killed == w.procs[pid].killed - {run}
  {
    hide KillFree, FaultFree, Runs, After;
    var a := OneMore(c, start, es, EnqClaim(pid, run, true));
    var b := OneMore(c, start, a, EnqSave(pid));
    more := OneMore(c, start, b, EnqPut(pid));
    assert After(c, start, b).rows == Claim(After(c, start, es).rows, run, pid, c.lease, After(c, start, es).now);
  }

  /** Dequeue a run the process owns and confirm its lease. */
  lemma EnterOwned(c: Config, start: World, es: seq<Event>, pid: nat, run: string) returns (more: seq<Event>)
    requires ValidConfig(c) && Runs(c, start, es)
    requires var w := After(c, start, es);
             && pid in w.procs && w.procs[pid].alive && w.procs[pid].work == Idle && w.procs[pid].queue == [run]
             && run !in w.procs[pid].killed && IsOwned(w.rows, run, pid, w.now)
    ensures Runs(c, start, more) && AsMild(es, more)
    ensures var w, v := After(c, start, es), After(c, start, more);
            var until := w.rows[run].until.value;
            && v.now == w.now && v.rows == w.rows && OthersUntouched(w, v, pid)
            && v.procs[pid].alive && v.procs[pid].enq == w.procs[pid].enq && v.procs[pid].killed == w.procs[pid].killed
            && v.procs[pid].queue == []
            && v.procs[pid].work == Entered(run, Beats(w.now, w.now, w.now + c.beat, 1, until - w.now, false, true))
  {
    hide StopAfter, KillFree, FaultFree, Runs, After;
    var a := OneMore(c, start, es, Take(pid));
    more := OneMore(c, start, a, CheckOwned(pid));
  }

  /** Dequeue a run the process owns and begin indexing it. */
  lemma Begin(c: Config, start: World, es: seq<Event>, pid: nat, run: string) returns (more: seq<Event>)
    requires ValidConfig(c) && Runs(c, start, es)
    requires var w := After(c, start, es);
             && pid in w.procs && w.procs[pid].alive && w.procs[pid].work == Idle && w.procs[pid].queue == [run]
             && run !in w.procs[pid].killed && IsOwned(w.rows, run, pid, w.now)
    ensures Runs(c, start, more) && AsMild(es, more)
    ensures var w, v := After(c, start, es), After(c, start, more);
            var until := w.rows[run].until.value;
            && v.now == w.now && v.rows == w.rows[run := w.rows[run].(state := Running)]
            && OthersUntouched(w, v, pid)
            && v.procs[pid].alive && v.procs[pid].enq == w.procs[pid].enq && v.procs[pid].killed == w.procs[pid].killed
            && v.procs[pid].queue == []
            && v.procs[pid].work == Indexing(run, Beats(w.now, w.now, w.now + c.beat, 1, until - w.now, false, true))
  {
    hide StopAfter, KillFree, FaultFree, Runs, After;
    var a := EnterOwned(c, start, es, pid, run);
    more := OneMore(c, start, a, Start(pid));
  }

  /** Every process but 0 is idle, and 0 is indexing `run`. */
  predicate Alone(c: Config, w: World, run: string)
    requires ValidConfig(c)
  {
    && w.procs.Keys == {0, 1} && IndexingRun(w, 0, run) && w.procs[0].enq == NoEnq
    && w.procs[1].alive && w.procs[1].enq == NoEnq && w.procs[1].work == Idle
    && Timing(c, w.now, w.procs[0].work.beats, StopAfter(c))
  }

  /** The clock moves and nothing else does. */
  lemma TickAlone(c: Config, w: World, run: string)
    requires ValidConfig(c) && Alone(c, w, run) && w.now < w.procs[0].work.beats.next
    ensures Enabled(c, w, Tick) && Alone(c, Apply(c, w, Tick), run)
  {
    hide StopAfter;
  }

  /** What coasting leaves as it was. */
  predicate SameLease(w: World, v: World) {
    && 0 in w.procs && 0 in v.procs && 1 in w.procs && 1 in v.procs
    && w.procs[0].work.Indexing? && v.procs[0].work.Indexing?
    && v.rows == w.rows && v.procs[1] == w.procs[1] && v.procs[0].killed == w.procs[0].killed
    && v.procs[0].work.beats.entered == w.procs[0].work.beats.entered
    && v.procs[0].work.beats.left == w.procs[0].work.beats.left
    && v.procs[0].work.beats.last == w.procs[0].work.beats.last
  }

  /** A worker whose renewals keep raising goes on for as long as `StopAfter` allows. */
  lemma {:induction false} Coast(c: Config, start: World, es: seq<Event>, run: string, d: nat)
    returns (more: seq<Event>)
    requires ValidConfig(c) && Runs(c, start, es) && KillFree(es) && Alone(c, After(c, start, es), run)
    requires var w := After(c, start, es); w.now + d <= w.procs[0].work.beats.last + StopAfter(c)
    ensures Runs(c, start, more) && KillFree(more) && Alone(c, After(c, start, more), run)
    ensures After(c, start, more).now == After(c, start, es).now + d
    ensures SameLease(After(c, start, es), After(c, start, more))
    ensures var w := After(c, start, es);
            FaultFree(es) && w.now + d <= w.procs[0].work.beats.next ==> FaultFree(more)
    decreases d
  {
    hide StopAfter, Timing, FailureLimit, Apply, Enabled, Runs, After, KillFree, FaultFree;
    if d == 0 {
      more := es;
    } else {
      var next := es;
      NotOverdue(c, After(c, start, es), run);
      if After(c, start, es).now == After(c, start, es).procs[0].work.beats.next {
        next := RideOut(c, start, es, run);
      }
      TickAlone(c, After(c, start, next), run);
      var ticked := OneMore(c, start, next, Tick);
      TickKeeps(c, After(c, start, next));
      assert SameLease(After(c, start, next), After(c, start, ticked));
      more := Coast(c, start, ticked, run, d - 1);
    }
  }

  lemma NotOverdue(c: Config, w: World, run: string)
    requires ValidConfig(c) && Alone(c, w, run)
    ensures w.now <= w.procs[0].work.beats.next
  {
  }

  lemma TickKeeps(c: Config, w: World)
    requires ValidConfig(c) && Enabled(c, w, Tick)
    ensures Apply(c, w, Tick) == w.(now := w.now + 1)
  {
  }

  /** One failed renewal before the limit. */
  lemma RideOut(c: Config, start: World, es: seq<Event>, run: string) returns (more: seq<Event>)
    requires ValidConfig(c) && Runs(c, start, es) && KillFree(es) && Alone(c, After(c, start, es), run)
    requires var w := After(c, start, es);
             var b := w.procs[0].work.beats;
             w.now == b.next && w.now < b.last + StopAfter(c)
    ensures Runs(c, start, more) && Alone(c, After(c, start, more), run)
    ensures var w, v := After(c, start, es), After(c, start, more);
            v.now == w.now && SameLease(w, v) && v.procs[0].work.beats.next > v.now
    ensures KillFree(more)
  {
    var w := After(c, start, es);
    var b := w.procs[0].work.beats;
    Survivable(c, b.tries);
    NextBeatInTime(c, b.tries);
    more := OneMore(c, start, es, BeatError(0));
  }

  lemma Survivable(c: Config, tries: nat)
    requires ValidConfig(c) && tries * c.beat < StopAfter(c)
    ensures tries * c.beat < FailureLimit(c)
  {
    var q := (c.lease - 1) / c.beat;
    DivBounds(c.lease - 1, c.beat, 1);
    Ordered(tries, q, c.beat);
    Monotone(tries + 1, q, c.beat);
    assert (tries + 1) * c.beat == tries * c.beat + c.beat;
  }

  lemma {:induction false} WaitIdle(c: Config, start: World, es: seq<Event>, d: nat) returns (more: seq<Event>)
    requires ValidConfig(c) && Runs(c, start, es)
    requires var w := After(c, start, es);
             forall q | q in w.procs :: w.procs[q].enq == NoEnq && w.procs[q].work == Idle
    ensures Runs(c, start, more) && AsMild(es, more)
    ensures After(c, start, more) == After(c, start, es).(now := After(c, start, es).now + d)
    decreases d
  {
    hide Runs, After, KillFree, FaultFree;
    if d == 0 {
      more := es;
    } else {
      assert forall q | q in After(c, start, es).procs ::
               Quiet(After(c, start, es).procs[q], After(c, start, es).now);
      var ticked := OneMore(c, start, es, Tick);
      more := WaitIdle(c, start, ticked, d - 1);
    }
  }

  lemma {:induction false} KillFreeIsCalm(c: Config, w: World, es: seq<Event>, h: int)
    requires ValidConfig(c) && Runs(c, w, es) && KillFree(es) && (FaultFree(es) || h == StopAfter(c))
    ensures CalmRun(c, w, es, h)
    decreases |es|
  {
    hide StopAfter;
    if es != [] {
      assert forall i | 0 <= i < |es[1..]| :: es[1..][i] == es[i + 1];
      assert FaultFree(es) ==> NoFault(es[0]);
      KillFreeIsCalm(c, Apply(c, w, es[0]), es[1..], h);
    }
  }

  // ---- Entering too late ----

  /**
   Process 0 waits in its queue until only `left` of its lease remains, `left` no more than `StopAfter`,
   enters, and cannot renew; when the lease ends process 1 is handed the same run. Both index it. If `left`
   is at most one heartbeat, no renewal even has to fail.
   */
  lemma ShortEntryOverlaps(c: Config, run: string, left: nat) returns (es: seq<Event>)
    requires ValidConfig(c) && 1 <= left <= StopAfter(c)
    ensures Runs(c, Two(), es) && CalmRun(c, Two(), es, StopAfter(c))
    ensures left <= c.beat ==> CalmRun(c, Two(), es, c.beat)
    ensures var w := After(c, Two(), es);
            && IndexingRun(w, 0, run) && IndexingRun(w, 1, run)
            && w.procs[0].killed == {} && w.procs[1].killed == {}
            && w.procs[0].work.beats.left == left
  {
    hide StopAfter, Apply, Enabled, Runs, After, Timing, KillFree, FaultFree, Claimable, CalmRun;
    StopAfterBounds(c);
    var start := Two();
    var d := EnterLate(c, run, left);
    var e := Coast(c, start, d, run, left);
    es := HandOver(c, start, e, 1, run);
    KillFreeIsCalm(c, start, es, StopAfter(c));
    if left <= c.beat {
      KillFreeIsCalm(c, start, es, c.beat);
    }
  }

  lemma EnterLate(c: Config, run: string, left: nat) returns (es: seq<Event>)
    requires ValidConfig(c) && 1 <= left < c.lease
    ensures Runs(c, Two(), es) && KillFree(es) && FaultFree(es)
    ensures var w := After(c, Two(), es);
            && Alone(c, w, run) && w.procs[0].killed == {} && w.procs[1] == NewProc()
            && w.procs[0].work.beats.left == left && w.procs[0].work.beats.last == w.now == c.lease - left
            && w.procs[0].work.beats.next == w.now + c.beat
            && Claimable(w.rows, run, true, c.lease)
  {
    hide StopAfter, Apply, Enabled, Runs, After, Timing, KillFree, FaultFree;
    var start := Two();
    NothingYet(c, start);
    var a := Enqueue(c, start, [], 0, run);
    var b := WaitIdle(c, start, a, c.lease - left);
    es := Begin(c, start, b, 0, run);
    StartsAlone(c, After(c, start, es), run);
  }

  /** Alive with nothing to do. */
  predicate Spare(w: World, pid: nat) {
    && pid in w.procs && w.procs[pid].alive
    && w.procs[pid].enq == NoEnq && w.procs[pid].work == Idle && w.procs[pid].queue == []
  }

  /** A spare process claims the run and begins it, whatever the others are doing. */
  lemma HandOver(c: Config, start: World, es: seq<Event>, pid: nat, run: string) returns (more: seq<Event>)
    requires ValidConfig(c) && Runs(c, start, es)
    requires var w := After(c, start, es); Spare(w, pid) && Claimable(w.rows, run, true, w.now)
    ensures Runs(c, start, more) && AsMild(es, more)
    ensures var w, v := After(c, start, es), After(c, start, more);
            && OthersUntouched(w, v, pid) && OwnedIn(v.rows, run, pid)
            && IndexingRun(v, pid, run) && v.procs[pid].work.beats.left == c.lease
            && v.procs[pid].killed == w.procs[pid].killed - {run}
  {
    hide Runs, After, KillFree, FaultFree, Apply, Enabled;
    var f := Enqueue(c, start, es, pid, run);
    more := Begin(c, start, f, pid, run);
  }

  lemma NothingYet(c: Config, w: World)
    requires ValidConfig(c)
    ensures Runs(c, w, []) && After(c, w, []) == w && KillFree([]) && FaultFree([])
  {
  }

  lemma StartsAlone(c: Config, w: World, run: string)
    requires ValidConfig(c) && w.procs.Keys == {0, 1} && IndexingRun(w, 0, run) && w.procs[0].enq == NoEnq
    requires w.procs[1].alive && w.procs[1].enq == NoEnq && w.procs[1].work == Idle
    requires var b := w.procs[0].work.beats;
             b.entered == b.last == w.now && b.next == w.now + c.beat && b.tries == 1 && b.clean
    ensures Alone(c, w, run)
  {
    FreshTiming(c, w.now, w.procs[0].work.beats, StopAfter(c));
  }

  // ---- Killing at the wrong moment ----

  /**
   The worker has waited until its lease lapsed, the run is posted again, and the worker reaches the old
   queue entry after that claim took effect but before the claim's answer is seen.
   */
  lemma EnterUnderClaim(c: Config, start: World, pid: nat, run: string) returns (es: seq<Event>)
    requires ValidConfig(c) && Initial(start) && pid in start.procs
    ensures Runs(c, start, es) && KillFree(es) && FaultFree(es)
    ensures var w := After(c, start, es);
            && OthersUntouched(start, w, pid) && w.procs[pid].alive && w.procs[pid].enq == Claimed(run)
            && w.procs[pid].work.Entered? && w.procs[pid].work.run == run && w.procs[pid].work.beats.left == c.lease
            && w.procs[pid].queue == [] && w.procs[pid].killed == {}
            && OwnedIn(w.rows, run, pid) && w.rows[run].state == Pending
  {
    hide StopAfter, FailureLimit, Runs, After, KillFree, FaultFree, Apply, Enabled;
    NothingYet(c, start);
    var a := Enqueue(c, start, [], pid, run);
    var b := WaitIdle(c, start, a, c.lease);
    var w := After(c, start, b);
    ClaimAgain(c, w, pid, run);
    var d := OneMore(c, start, b, EnqClaim(pid, run, true));
    es := EnterOwned(c, start, d, pid, run);
  }

  lemma ClaimAgain(c: Config, w: World, pid: nat, run: string)
    requires ValidConfig(c) && pid in w.procs && w.procs[pid].alive && w.procs[pid].enq == NoEnq
    requires run in w.rows && Claimable(w.rows, run, true, w.now)
    ensures Enabled(c, w, EnqClaim(pid, run, true))
    ensures var v := Apply(c, w, EnqClaim(pid, run, true));
            && v.now == w.now && OthersUntouched(w, v, pid) && v.procs[pid].alive && v.procs[pid].enq == Claimed(run)
            && v.procs[pid].work == w.procs[pid].work && v.procs[pid].queue == w.procs[pid].queue
            && v.procs[pid].killed == w.procs[pid].killed
            && IsOwned(v.rows, run, pid, v.now) && v.rows[run].state == Pending
            && v.rows[run].until.value == w.now + c.lease
  {
    hide StopAfter;
  }

  /** ... so that the claim's PENDING save lands on a row its worker has already set RUNNING. */
  lemma LateSave(c: Config, start: World, pid: nat, run: string) returns (es: seq<Event>)
    requires ValidConfig(c) && Initial(start) && pid in start.procs
    ensures Runs(c, start, es) && KillFree(es) && FaultFree(es)
    ensures var w := After(c, start, es);
            && OthersUntouched(start, w, pid) && IndexingRun(w, pid, run) && w.procs[pid].work.beats.left == c.lease
            && w.procs[pid].enq == Saved(run) && w.procs[pid].queue == [] && w.procs[pid].killed == {}
            && OwnedIn(w.rows, run, pid) && w.rows[run].state == Pending
  {
    hide StopAfter, FailureLimit, Runs, After, KillFree, FaultFree;
    var a := EnterUnderClaim(c, start, pid, run);
    var b := OneMore(c, start, a, Start(pid));
    es := OneMore(c, start, b, EnqSave(pid));
  }

  lemma KillFreesRow(c: Config, w: World, pid: nat, run: string)
    requires ValidConfig(c) && pid in w.procs && w.procs[pid].alive
    requires OwnedIn(w.rows, run, pid) && w.rows[run].state == Pending
    ensures Enabled(c, w, Kill(pid, run))
    ensures var k := Apply(c, w, Kill(pid, run));
            && k.now == w.now && OthersUntouched(w, k, pid) && Claimable(k.rows, run, true, k.now)
            && k.procs[pid].alive && k.procs[pid].work == w.procs[pid].work && k.procs[pid].enq == w.procs[pid].enq
            && k.procs[pid].queue == w.procs[pid].queue && k.procs[pid].killed == w.procs[pid].killed + {run}
            && OwnedIn(k.rows, run, pid) && k.rows[run].state == Failed
  {
  }
}
