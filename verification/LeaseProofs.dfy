/**
 Who may index a run: over every interleaving of any number of processes, two of them index the same run at
 once only if one entered on a lease too short to renew, or a kill freed the row under its worker.
 */
module LeaseProofs {
  import opened StatusStore
  import opened IndexProtocol

  // ---- How long renewals may keep failing ----

  lemma Ordered(a: int, b: int, h: int)
    requires h > 0 && a * h < b * h
    ensures a < b
  {
  }

  /** `n / h` is the largest `m` with `m * h <= n`. */
  lemma DivBounds(n: int, h: int, m: int)
    requires h > 0
    ensures n / h * h <= n < (n / h + 1) * h
    ensures m * h <= n ==> m <= n / h
  {
    var q := n / h;
    assert n == q * h + n % h;
    assert (q + 1) * h == q * h + h;
    if m * h <= n {
      Ordered(m, q + 1, h);
    }
  }

  lemma StopAfterBounds(c: Config)
    requires ValidConfig(c)
    ensures c.lease - c.beat <= StopAfter(c) < c.lease && c.beat <= StopAfter(c)
  {
    DivBounds(c.lease - 1, c.beat, 1);
    var q := (c.lease - 1) / c.beat;
    assert (q + 1) * c.beat == q * c.beat + c.beat;
  }

  /** While a failed renewal is survivable, the next wake-up still comes before the limit. */
  lemma NextBeatInTime(c: Config, tries: nat)
    requires ValidConfig(c) && tries * c.beat < FailureLimit(c) && tries > 0
    ensures (tries + 1) * c.beat == tries * c.beat + c.beat <= StopAfter(c)
  {
    var h := c.beat;
    assert (tries + 1) * h == tries * h + h;
    assert tries * h >= h by { TriesPositive(tries, h); }
    DivBounds(c.lease - 1, h, tries + 1);
    var q := (c.lease - 1) / h;
    Monotone(tries + 1, q, h);
  }

  lemma TriesPositive(n: nat, h: nat)
    requires n > 0
    ensures n * h >= h
  {
  }

  lemma Monotone(a: int, b: int, h: int)
    requires a <= b && h > 0
    ensures a * h <= b * h
  {
  }

  // ---- The invariant ----

  /**
   How long an execution may go without a renewal: as long as failing renewals are survived, or one
   heartbeat where renewals do not raise.
   */
  predicate Patience(c: Config, h: int)
    requires ValidConfig(c)
  {
    h == StopAfter(c) || h == c.beat
  }

  lemma PatienceBounds(c: Config, h: int)
    requires ValidConfig(c) && Patience(c, h)
    ensures c.beat <= h <= StopAfter(c) && 0 < h < c.lease
  {
    StopAfterBounds(c);
  }

  /** Entered with more lease than that, or renewed since. */
  predicate Fenced(b: Beats, h: int) {
    b.renewed || b.left > h
  }

  predicate Timing(c: Config, now: int, b: Beats, h: int)
    requires ValidConfig(c)
  {
    && b.entered <= b.last <= now <= b.next
    && b.tries > 0 && b.next == b.last + b.tries * c.beat <= b.last + h
    && (!b.renewed ==> b.last == b.entered)
    && (b.clean ==> b.tries == 1)
  }

  /** The row is this process's, in progress, and leased past `beyond`. */
  predicate Guarded(rows: Rows, run: string, pid: nat, beyond: int) {
    OwnedIn(rows, run, pid) && Active(rows[run]) && rows[run].until.Some? && rows[run].until.value > beyond
  }

  // ---- Heartbeats come in time, whatever is killed ----

  predicate InTime(c: Config, w: World, pid: nat, h: int)
    requires ValidConfig(c) && pid in w.procs
  {
    w.procs[pid].alive && Executing(w.procs[pid].work) ==> Timing(c, w.now, w.procs[pid].work.beats, h)
  }

  ghost predicate AllInTime(c: Config, w: World, h: int)
    requires ValidConfig(c)
  {
    forall q | q in w.procs :: InTime(c, w, q, h)
  }

  /** Renewals raise only where `h` allows for it. */
  predicate Steady(c: Config, e: Event, h: int)
    requires ValidConfig(c)
  {
    e.BeatError? ==> h == StopAfter(c)
  }

  lemma FreshTiming(c: Config, now: int, b: Beats, h: int)
    requires ValidConfig(c) && Patience(c, h)
    requires b.entered <= b.last == now && b.next == now + c.beat && b.tries == 1 && b.clean
    requires b.renewed || b.entered == now
    ensures Timing(c, now, b, h)
  {
    StopAfterBounds(c);
    assert b.tries * c.beat == c.beat;
  }

  lemma EntryInTime(c: Config, w: World, e: Event, h: int)
    requires ValidConfig(c) && Patience(c, h) && Enabled(c, w, e) && (e.CheckOwned? || e.TryAgain?)
    ensures InTime(c, Apply(c, w, e), e.pid, h)
  {
    hide StopAfter, Timing, Patience;
    var p := Apply(c, w, e).procs[e.pid];
    if p.work.Entered? {
      FreshTiming(c, w.now, p.work.beats, h);
    }
  }

  lemma BeatInTime(c: Config, w: World, pid: nat, h: int)
    requires ValidConfig(c) && Patience(c, h) && Enabled(c, w, Beat(pid)) && InTime(c, w, pid, h)
    ensures InTime(c, Apply(c, w, Beat(pid)), pid, h)
  {
    var b := w.procs[pid].work.beats;
    assert b.entered <= w.now;
    hide StopAfter, Timing, Patience;
    FreshTiming(c, w.now, Beats(b.entered, w.now, w.now + c.beat, 1, b.left, true, true), h);
  }

  lemma BeatErrorInTime(c: Config, w: World, pid: nat)
    requires ValidConfig(c) && Enabled(c, w, BeatError(pid)) && InTime(c, w, pid, StopAfter(c))
    ensures InTime(c, Apply(c, w, BeatError(pid)), pid, StopAfter(c))
  {
    hide StopAfter, FailureLimit;
    var b := w.procs[pid].work.beats;
    var next := b.(next := b.next + c.beat, tries := b.tries + 1, clean := false);
    TriesPositive(b.tries, c.beat);
    if w.now - b.last < FailureLimit(c) {
      NextBeatInTime(c, b.tries);
      assert Timing(c, w.now, next, StopAfter(c));
    }
  }

  /** Giving up leaves the worker at the end of the execution. */
  lemma Abandons(p: Proc)
    requires p.work != Idle
    ensures Stop(p).work.Closing? && KilledProc(p).work.Closing?
  {
  }

  predicate AboutBeats(e: Event) {
    e.CheckOwned? || e.TryAgain? || e.Beat? || e.BeatError?
  }

  /** Every other step leaves the heartbeat alone or ends the execution. */
  lemma BeatsStay(c: Config, w: World, e: Event)
    requires ValidConfig(c) && Enabled(c, w, e) && !e.Tick? && !AboutBeats(e)
    ensures var p, q := w.procs[e.pid], Apply(c, w, e).procs[e.pid];
            Executing(q.work) ==> Executing(p.work) && q.work.beats == p.work.beats && q.work.run == p.work.run
  {
    hide StopAfter, Save, SaveState, KilledRows, Release, Claim, Stop, KilledProc;
    if w.procs[e.pid].work != Idle {
      Abandons(w.procs[e.pid]);
    }
  }

  lemma StepInTime(c: Config, w: World, e: Event, q: nat, h: int)
    requires ValidConfig(c) && Patience(c, h) && Enabled(c, w, e) && Steady(c, e, h)
    requires q in w.procs && InTime(c, w, q, h)
    ensures q in Apply(c, w, e).procs && InTime(c, Apply(c, w, e), q, h)
  {
    hide StopAfter, FailureLimit, Patience, StepProc;
    if e.Tick? {
      assert Quiet(w.procs[q], w.now);
    } else if e.pid == q {
      if e.CheckOwned? || e.TryAgain? {
        EntryInTime(c, w, e, h);
      } else if e.Beat? {
        BeatInTime(c, w, q, h);
      } else if e.BeatError? {
        BeatErrorInTime(c, w, q);
      } else {
        BeatsStay(c, w, e);
      }
    }
  }

  lemma {:induction false} RunInTime(c: Config, w: World, es: seq<Event>, h: int)
    requires ValidConfig(c) && Patience(c, h) && Runs(c, w, es) && AllInTime(c, w, h)
    requires forall i | 0 <= i < |es| :: Steady(c, es[i], h)
    ensures AllInTime(c, After(c, w, es), h)
    decreases |es|
  {
    hide Patience, InTime, Apply, Enabled, Steady;
    if es != [] {
      var v := Apply(c, w, es[0]);
      forall q | q in v.procs ensures InTime(c, v, q, h) {
        SameProcesses(c, w, es[0]);
        StepInTime(c, w, es[0], q, h);
      }
      assert forall i | 0 <= i < |es[1..]| :: es[1..][i] == es[i + 1];
      RunInTime(c, v, es[1..], h);
    }
  }

  lemma SameProcesses(c: Config, w: World, e: Event)
    requires ValidConfig(c) && Enabled(c, w, e)
    ensures Apply(c, w, e).procs.Keys == w.procs.Keys
  {
    hide StepProc;
  }

  // ---- The invariant ----

  /** A kill can still stop the execution before it begins. */
  predicate Stoppable(p: Proc)
    requires p.work != Idle
  {
    p.work.Entered? && p.work.run in p.killed && p.enq != Claimed(p.work.run)
  }

  /** A fenced execution that will go ahead holds its row past its last possible moment. */
  predicate Safe(w: World, pid: nat, h: int)
    requires pid in w.procs
  {
    var p := w.procs[pid];
    p.alive && Executing(p.work) && Fenced(p.work.beats, h) && !Stoppable(p) ==>
      Guarded(w.rows, p.work.run, pid, p.work.beats.last + h)
  }

  ghost predicate AllSafe(c: Config, w: World, h: int)
    requires ValidConfig(c)
  {
    AllInTime(c, w, h) && forall q | q in w.procs :: Safe(w, q, h)
  }

  /**
   A kill that frees the row of a fenced execution which goes on: it finds PENDING on a row of its own process,
   under a worker that is indexing, or has entered while a claim is about to lift the kill's flag.
   */
  predicate KillFrees(w: World, pid: nat, run: string, h: int) {
    pid in w.procs && var p := w.procs[pid];
    && OwnedIn(w.rows, run, pid) && w.rows[run].state == Pending
    && Executing(p.work) && p.work.run == run && Fenced(p.work.beats, h)
    && (p.work.Indexing? || p.enq == Claimed(run))
  }

  predicate Calm(w: World, e: Event, h: int) {
    e.Kill? ==> !KillFrees(w, e.pid, e.run, h)
  }

  predicate Allowed(c: Config, w: World, e: Event, h: int)
    requires ValidConfig(c)
  {
    Calm(w, e, h) && Steady(c, e, h)
  }

  predicate CalmRun(c: Config, w: World, es: seq<Event>, h: int)
    requires ValidConfig(c) && Runs(c, w, es)
    decreases |es|
  {
    es == [] || (Allowed(c, w, es[0], h) && CalmRun(c, Apply(c, w, es[0]), es[1..], h))
  }

  /** Nothing another process does can take a guarded row. */
  lemma OthersKeepGuard(c: Config, w: World, e: Event, run: string, pid: nat, beyond: int)
    requires ValidConfig(c) && Enabled(c, w, e) && !e.Tick? && e.pid != pid
    requires Guarded(w.rows, run, pid, beyond) && w.now <= beyond
    ensures Guarded(Apply(c, w, e).rows, run, pid, beyond)
  {
  }

  lemma OwnBeatSafe(c: Config, w: World, e: Event, h: int)
    requires ValidConfig(c) && Patience(c, h) && Enabled(c, w, e) && (e.Beat? || e.BeatError?) && Safe(w, e.pid, h)
    ensures Safe(Apply(c, w, e), e.pid, h)
  {
    PatienceBounds(c, h);
    hide StopAfter, FailureLimit, Patience;
  }

  lemma OwnEntrySafe(c: Config, w: World, e: Event, h: int)
    requires ValidConfig(c) && Enabled(c, w, e) && (e.CheckOwned? || e.TryAgain?) && 0 < h < c.lease
    ensures Safe(Apply(c, w, e), e.pid, h)
  {
    hide StopAfter;
  }

  lemma OwnKillSafe(c: Config, w: World, e: Event, h: int)
    requires ValidConfig(c) && Enabled(c, w, e) && Calm(w, e, h) && e.Kill? && Safe(w, e.pid, h)
    ensures Safe(Apply(c, w, e), e.pid, h)
  {
    hide StopAfter, FailureLimit, Fenced;
  }

  lemma OwnEnqueueSafe(c: Config, w: World, e: Event, h: int)
    requires ValidConfig(c) && Patience(c, h) && Enabled(c, w, e) && (e.EnqClaim? || e.EnqSave? || e.EnqPut?)
    requires Safe(w, e.pid, h) && InTime(c, w, e.pid, h)
    ensures Safe(Apply(c, w, e), e.pid, h)
  {
    PatienceBounds(c, h);
    var p := w.procs[e.pid];
    assert p.alive && Executing(p.work) ==> p.work.beats.last <= w.now;
    hide StopAfter, Patience, Timing, Fenced;
  }

  /** Steps after which the process executes nothing. */
  lemma OwnEndSafe(c: Config, w: World, e: Event, h: int)
    requires ValidConfig(c) && Enabled(c, w, e)
    requires e.Take? || e.KillStop? || e.Finish? || e.ClosePop? || e.LetGo? || e.Crash?
    ensures Safe(Apply(c, w, e), e.pid, h)
  {
    hide StopAfter, Fenced, Guarded, Save, SaveState, KilledRows, Release, Stop, KilledProc;
    if w.procs[e.pid].work != Idle {
      Abandons(w.procs[e.pid]);
    }
  }

  /** Steps that leave the heartbeat alone. */
  lemma OwnCalmStepSafe(c: Config, w: World, e: Event, h: int)
    requires ValidConfig(c) && Enabled(c, w, e) && (e.Start? || e.Embed? || e.Flush? || e.Refresh?)
    requires Safe(w, e.pid, h)
    ensures Safe(Apply(c, w, e), e.pid, h)
  {
    hide StopAfter, Fenced, Stop, KilledProc, KilledRows;
    var p := w.procs[e.pid];
    if p.work != Idle {
      Abandons(p);
    }
  }

  lemma OwnStepSafe(c: Config, w: World, e: Event, h: int)
    requires ValidConfig(c) && Patience(c, h) && Enabled(c, w, e) && Calm(w, e, h) && !e.Tick?
    requires Safe(w, e.pid, h) && InTime(c, w, e.pid, h)
    ensures Safe(Apply(c, w, e), e.pid, h)
  {
    PatienceBounds(c, h);
    hide StopAfter, FailureLimit, Safe, InTime, Apply, Enabled, Patience, Calm;
    if e.CheckOwned? || e.TryAgain? {
      OwnEntrySafe(c, w, e, h);
    } else if e.Beat? || e.BeatError? {
      OwnBeatSafe(c, w, e, h);
    } else if e.Kill? {
      OwnKillSafe(c, w, e, h);
    } else if e.EnqClaim? || e.EnqSave? || e.EnqPut? {
      OwnEnqueueSafe(c, w, e, h);
    } else if e.Take? || e.KillStop? || e.Finish? || e.ClosePop? || e.LetGo? || e.Crash? {
      OwnEndSafe(c, w, e, h);
    } else {
      OwnCalmStepSafe(c, w, e, h);
    }
  }

  lemma OthersSafe(c: Config, w: World, e: Event, q: nat, h: int)
    requires ValidConfig(c) && Patience(c, h) && Enabled(c, w, e) && !e.Tick?
    requires q in w.procs && e.pid != q && Safe(w, q, h) && InTime(c, w, q, h)
    ensures q in Apply(c, w, e).procs && Safe(Apply(c, w, e), q, h)
  {
    var p := w.procs[q];
    if p.alive && Executing(p.work) && Guarded(w.rows, p.work.run, q, p.work.beats.last + h) {
      OthersKeepGuard(c, w, e, p.work.run, q, p.work.beats.last + h);
    }
    hide StepProc;
  }

  lemma StepSafe(c: Config, w: World, e: Event, h: int)
    requires ValidConfig(c) && Patience(c, h) && Enabled(c, w, e) && Allowed(c, w, e, h) && AllSafe(c, w, h)
    ensures AllSafe(c, Apply(c, w, e), h)
  {
    var v := Apply(c, w, e);
    SameProcesses(c, w, e);
    forall q | q in v.procs ensures InTime(c, v, q, h) && Safe(v, q, h) {
      assert InTime(c, w, q, h) && Safe(w, q, h);
      StepInTime(c, w, e, q, h);
      if !e.Tick? {
        if e.pid == q {
          OwnStepSafe(c, w, e, h);
        } else {
          OthersSafe(c, w, e, q, h);
        }
      }
    }
  }

  lemma {:induction false} RunSafe(c: Config, w: World, es: seq<Event>, h: int)
    requires ValidConfig(c) && Patience(c, h) && Runs(c, w, es) && CalmRun(c, w, es, h) && AllSafe(c, w, h)
    ensures AllSafe(c, After(c, w, es), h)
    decreases |es|
  {
    hide AllSafe, Patience, Allowed;
    if es != [] {
      StepSafe(c, w, es[0], h);
      RunSafe(c, Apply(c, w, es[0]), es[1..], h);
    }
  }

  // ---- What it gives ----

  /** Indexing `run` on a lease it can keep. */
  predicate Rightful(w: World, pid: nat, run: string, h: int) {
    pid in w.procs && var p := w.procs[pid];
    p.alive && AtWork(p, run) && Fenced(p.work.beats, h)
  }

  lemma OnlyOneIsRightful(c: Config, w: World, run: string, a: nat, b: nat, h: int)
    requires ValidConfig(c) && AllSafe(c, w, h) && Rightful(w, a, run, h) && Rightful(w, b, run, h)
    ensures a == b
  {
    assert Safe(w, a, h) && Safe(w, b, h);
  }

  /**
   In every reachable state, killed or not, at most one process indexes a run having entered on more than
   `StopAfter` of lease or renewed since.
   */
  lemma MutualExclusion(c: Config, start: World, es: seq<Event>, run: string, a: nat, b: nat)
    requires ValidConfig(c) && Initial(start) && Runs(c, start, es) && CalmRun(c, start, es, StopAfter(c))
    requires Rightful(After(c, start, es), a, run, StopAfter(c))
    requires Rightful(After(c, start, es), b, run, StopAfter(c))
    ensures a == b
  {
    RunSafe(c, start, es, StopAfter(c));
    OnlyOneIsRightful(c, After(c, start, es), run, a, b, StopAfter(c));
  }

  /** While renewals do not raise, more than one heartbeat of lease on entry is enough. */
  lemma CleanExclusion(c: Config, start: World, es: seq<Event>, run: string, a: nat, b: nat)
    requires ValidConfig(c) && Initial(start) && Runs(c, start, es) && CalmRun(c, start, es, c.beat)
    requires Rightful(After(c, start, es), a, run, c.beat) && Rightful(After(c, start, es), b, run, c.beat)
    ensures a == b
  {
    RunSafe(c, start, es, c.beat);
    OnlyOneIsRightful(c, After(c, start, es), run, a, b, c.beat);
  }

  /**
   The only other way to index a run is to have entered on `StopAfter` or less of lease and not to have
   renewed since. That lasts at most `StopAfter`, and at most one heartbeat if no renewal has raised.
   */
  lemma UnfencedIsBrief(c: Config, start: World, es: seq<Event>, pid: nat)
    requires ValidConfig(c) && Initial(start) && Runs(c, start, es)
    requires var w := After(c, start, es);
             && pid in w.procs && w.procs[pid].alive && w.procs[pid].work.Indexing?
             && !Fenced(w.procs[pid].work.beats, StopAfter(c))
    ensures var w := After(c, start, es);
            var b := w.procs[pid].work.beats;
            w.now - b.entered <= StopAfter(c) && (b.clean ==> w.now - b.entered <= c.beat)
  {
    RunInTime(c, start, es, StopAfter(c));
    assert InTime(c, After(c, start, es), pid, StopAfter(c));
  }

  /** A rightful worker's row is its own and its lease is live, so its saves are never refused. */
  lemma RightfulOwnsItsRow(c: Config, start: World, es: seq<Event>, pid: nat, run: string, h: int)
    requires ValidConfig(c) && Patience(c, h) && Initial(start) && Runs(c, start, es) && CalmRun(c, start, es, h)
    requires Rightful(After(c, start, es), pid, run, h)
    ensures var w := After(c, start, es); IsOwned(w.rows, run, pid, w.now)
  {
    PatienceBounds(c, h);
    RunSafe(c, start, es, h);
    assert Safe(After(c, start, es), pid, h) && InTime(c, After(c, start, es), pid, h);
  }

  /** A worker gives up over failing renewals in the last heartbeat before its lease would end, never later. */
  lemma GivesUpInTime(c: Config, start: World, es: seq<Event>, pid: nat)
    requires ValidConfig(c) && Initial(start) && Runs(c, start, es)
    requires Enabled(c, After(c, start, es), BeatError(pid))
    ensures var w := After(c, start, es);
            var v := Apply(c, w, BeatError(pid));
            var elapsed := w.now - w.procs[pid].work.beats.last;
            && elapsed == w.procs[pid].work.beats.tries * c.beat && 0 < elapsed < c.lease
            && (v.procs[pid].work.Closing? <==> c.lease - c.beat <= elapsed)
  {
    StopAfterBounds(c);
    RunInTime(c, start, es, StopAfter(c));
    var w := After(c, start, es);
    assert InTime(c, w, pid, StopAfter(c));
    TriesPositive(w.procs[pid].work.beats.tries, c.beat);
  }
}
