/**
 The index-job protocol (`src/geek_crawler_rag/indexer.py` over `status_store.py`) as a step system:
 any number of service processes, one shared set of job rows, one clock. A step is the code between
 two awaits together with the store call it ends in; anything may happen between two steps.
 */
module IndexProtocol {
  import opened StatusStore

  /** Lease and heartbeat lengths, in clock ticks. */
  datatype Config = Config(lease: nat, beat: nat)

  predicate ValidConfig(c: Config) {
    0 < c.beat < c.lease
  }

  /** The heartbeat task of one execution. */
  datatype Beats = Beats(
    entered: int,   // when the lease was confirmed and the heartbeat began
    last: int,      // `last_success`
    next: int,      // when it wakes next
    tries: nat,     // how many wake-ups after `last` that is
    left: int,      // history: how much of the lease was left on entry
    renewed: bool,  // history: a renewal has succeeded since
    clean: bool)    // history: no renewal has raised since `last`

  /** The single worker of a process. */
  datatype Work =
    | Idle
    | Held(run: string)                    // dequeued, ownership not yet asked for
    | Unowned(run: string)                 // `is_owned` said no
    | Entered(run: string, beats: Beats)   // lease confirmed, the run's task not yet past its first lines
    | Indexing(run: string, beats: Beats)  // RUNNING saved
    | Closing(run: string)                 // the execution is over
    | Releasing(run: string)               // the kill flag is cleared, the lease not yet released

  /** An `_enqueue` call in progress. */
  datatype Enq =
    | NoEnq
    | Claimed(run: string)                 // the claim took effect, its answer not yet seen
    | Saved(run: string)                   // the PENDING save took effect, the run not yet queued

  datatype Proc = Proc(
    alive: bool,
    queue: seq<string>,
    killed: set<string>,
    statuses: map<string, JobState>,
    enq: Enq,
    work: Work,
    // History: what was claimed, queued, dequeued, executed, and dequeued without being executed.
    claimed: multiset<string>,
    put: seq<string>,
    taken: seq<string>,
    started: multiset<string>,
    dropped: multiset<string>)

  datatype World = World(now: int, rows: Rows, procs: map<nat, Proc>)

  datatype Event =
    | Tick
    | EnqClaim(pid: nat, run: string, force: bool)
    | EnqSave(pid: nat)
    | EnqPut(pid: nat)
    | Take(pid: nat)
    | CheckOwned(pid: nat)
    | TryAgain(pid: nat)                   // `reacquire`
    | Start(pid: nat)
    | Embed(pid: nat)                      // checkpoint passed, `embed_and_upsert` begins
    | Flush(pid: nat)                      // the mid-run save
    | KillStop(pid: nat)                   // a checkpoint raises `JobKilled`
    | Finish(pid: nat, ok: bool)           // the terminal save
    | Beat(pid: nat)
    | BeatError(pid: nat)
    | ClosePop(pid: nat)
    | LetGo(pid: nat)                      // `release`
    | Kill(pid: nat, run: string)
    | Refresh(pid: nat, run: string)       // `get_status`
    | Crash(pid: nat)

  function NewProc(): Proc {
    Proc(true, [], {}, map[], NoEnq, Idle, multiset{}, [], [], multiset{}, multiset{})
  }

  predicate Executing(work: Work) {
    work.Entered? || work.Indexing?
  }

  predicate AtWork(p: Proc, run: string) {
    p.work.Indexing? && p.work.run == run
  }

  /** The longest a worker whose renewals all raise keeps going: the last wake-up before its lease ends. */
  function StopAfter(c: Config): int
    requires ValidConfig(c)
  {
    (c.lease - 1) / c.beat * c.beat
  }

  /** `failure_limit`. */
  function FailureLimit(c: Config): int {
    if c.lease - c.beat > 1 then c.lease - c.beat else 1
  }

  function Enter(c: Config, w: World, run: string, until: int): Work
    requires ValidConfig(c)
  {
    Entered(run, Beats(w.now, w.now, w.now + c.beat, 1, until - w.now, false, true))
  }

  /** The worker loop records a kill only over a status it knows and that is not terminal yet. */
  predicate RecordsKill(p: Proc, run: string) {
    run in p.statuses && !Terminal(p.statuses[run])
  }

  function AttemptOf(rows: Rows, run: string): nat {
    if run in rows then rows[run].attempt else 0
  }

  /** The rows after this process saves `state` for `run`. */
  function SaveState(rows: Rows, run: string, pid: nat, state: JobState): Rows {
    Save(rows, run, pid, Status(state, AttemptOf(rows, run)))
  }

  predicate Terminal(state: JobState) {
    state == Complete || state == Failed || state == Skipped
  }

  /** No task of the process is due at this instant: the clock may move on. */
  predicate Quiet(p: Proc, now: int) {
    p.alive ==> !p.enq.Claimed? && (Executing(p.work) ==> now < p.work.beats.next)
  }

  predicate Enabled(c: Config, w: World, e: Event) {
    if e.Tick? then forall q | q in w.procs :: Quiet(w.procs[q], w.now)
    else if e.pid !in w.procs || !w.procs[e.pid].alive then false
    else
      var p := w.procs[e.pid];
      match e
      case EnqClaim(_, run, force) => p.enq == NoEnq && Claimable(w.rows, run, force, w.now)
      case EnqSave(_) => p.enq.Claimed?
      case EnqPut(_) => p.enq.Saved?
      case Take(_) => p.work == Idle && p.queue != []
      case CheckOwned(_) => p.work.Held?
      case TryAgain(_) => p.work.Unowned?
      case Start(_) => p.work.Entered?
      case Embed(_) => p.work.Indexing? && p.work.run !in p.killed
      case Flush(_) => p.work.Indexing?
      case KillStop(_) => p.work.Indexing? && p.work.run in p.killed
      case Finish(_, _) => p.work.Indexing?
      case Beat(_) => Executing(p.work) && w.now == p.work.beats.next
      case BeatError(_) => Executing(p.work) && w.now == p.work.beats.next
      case ClosePop(_) => p.work.Closing?
      case LetGo(_) => p.work.Releasing?
      case _ => true
  }

  /** The worker abandons the run without having executed it, or keeps no record if it had. */
  function Stop(p: Proc): Proc
    requires p.work != Idle
  {
    var run := p.work.run;
    var dropped := if p.work.Indexing? then p.dropped else p.dropped + multiset{run};
    p.(work := Closing(run), dropped := dropped)
  }

  /** `JobKilled` reached the worker loop. */
  function KilledRows(rows: Rows, pid: nat, p: Proc, run: string): Rows {
    if RecordsKill(p, run) then SaveState(rows, run, pid, Failed) else rows
  }

  function KilledProc(p: Proc): Proc
    requires p.work != Idle
  {
    var run := p.work.run;
    if RecordsKill(p, run) then Stop(p).(statuses := p.statuses[run := Failed]) else Stop(p)
  }

  function StepProc(c: Config, w: World, e: Event): (r: (Rows, Proc))
    requires ValidConfig(c) && !e.Tick? && Enabled(c, w, e)
  {
    var p, pid, rows := w.procs[e.pid], e.pid, w.rows;
    match e
    case EnqClaim(_, run, _) =>
      (Claim(rows, run, pid, c.lease, w.now), p.(enq := Claimed(run), claimed := p.claimed + multiset{run}))
    case EnqSave(_) =>
      var run := p.enq.run;
      (SaveState(rows, run, pid, Pending),
       p.(enq := Saved(run), killed := p.killed - {run}, statuses := p.statuses[run := Pending]))
    case EnqPut(_) =>
      (rows, p.(enq := NoEnq, queue := p.queue + [p.enq.run], put := p.put + [p.enq.run]))
    case Take(_) =>
      var run := p.queue[0];
      var q := p.(queue := p.queue[1..], taken := p.taken + [run]);
      (rows,
       if run in p.killed
       then q.(killed := p.killed - {run}, work := Releasing(run), dropped := p.dropped + multiset{run})
       else q.(work := Held(run)))
    case CheckOwned(_) =>
      var run := p.work.run;
      (rows,
       p.(work := if IsOwned(rows, run, pid, w.now) then Enter(c, w, run, rows[run].until.value) else Unowned(run)))
    case TryAgain(_) =>
      var run := p.work.run;
      (Reacquire(rows, run, pid, c.lease, w.now),
       if Reacquirable(rows, run, pid, w.now) then p.(work := Enter(c, w, run, w.now + c.lease)) else Stop(p))
    case Start(_) =>
      var run := p.work.run;
      if run in p.killed then (KilledRows(rows, pid, p, run), KilledProc(p))
      else (SaveState(rows, run, pid, Running),
            p.(work := Indexing(run, p.work.beats), statuses := p.statuses[run := Running],
               started := p.started + multiset{run}))
    case Embed(_) => (rows, p)
    case Flush(_) => (SaveState(rows, p.work.run, pid, Running), p)
    case KillStop(_) => (KilledRows(rows, pid, p, p.work.run), KilledProc(p))
    case Finish(_, ok) =>
      var state := if ok then Complete else Failed;
      (SaveState(rows, p.work.run, pid, state), Stop(p).(statuses := p.statuses[p.work.run := state]))
    case Beat(_) =>
      var run, b := p.work.run, p.work.beats;
      (Heartbeat(rows, run, pid, c.lease, w.now),
       if Renewed(rows, run, pid, c.lease, w.now)
       then p.(work := p.work.(beats := Beats(b.entered, w.now, w.now + c.beat, 1, b.left, true, true)))
       else Stop(p))
    case BeatError(_) =>
      var b := p.work.beats;
      (rows,
       if w.now - b.last >= FailureLimit(c) then Stop(p)
       else p.(work := p.work.(beats := b.(next := b.next + c.beat, tries := b.tries + 1, clean := false))))
    case ClosePop(_) => (rows, p.(killed := p.killed - {p.work.run}, work := Releasing(p.work.run)))
    case LetGo(_) => (Release(rows, p.work.run, pid, w.now), p.(work := Idle))
    case Kill(_, run) =>
      if run !in rows then (rows, p)
      else if !Active(rows[run]) then (rows, p.(statuses := p.statuses[run := rows[run].state]))
      else if rows[run].state == Running then
        (rows, p.(killed := p.killed + {run}, statuses := p.statuses[run := Running]))
      else
        (SaveState(rows, run, pid, Failed),
         p.(killed := p.killed + {run}, statuses := p.statuses[run := Failed]))
    case Refresh(_, run) =>
      (rows, if run in rows then p.(statuses := p.statuses[run := rows[run].state]) else p)
    case Crash(_) => (rows, p.(alive := false))
  }

  function Apply(c: Config, w: World, e: Event): World
    requires ValidConfig(c) && Enabled(c, w, e)
  {
    if e.Tick? then w.(now := w.now + 1)
    else
      var (rows, p) := StepProc(c, w, e);
      World(w.now, rows, w.procs[e.pid := p])
  }

  // ---- Runs ----

  predicate Initial(w: World) {
    w.rows == map[] && forall q | q in w.procs :: w.procs[q] == NewProc()
  }

  /** Every event of the run is enabled when its turn comes. */
  predicate Runs(c: Config, w: World, es: seq<Event>)
    requires ValidConfig(c)
    decreases |es|
  {
    es == [] || (Enabled(c, w, es[0]) && Runs(c, Apply(c, w, es[0]), es[1..]))
  }

  function After(c: Config, w: World, es: seq<Event>): World
    requires ValidConfig(c) && Runs(c, w, es)
    decreases |es|
  {
    if es == [] then w else After(c, Apply(c, w, es[0]), es[1..])
  }

  lemma {:induction false} RunsAppend(c: Config, w: World, a: seq<Event>, b: seq<Event>)
    requires ValidConfig(c) && Runs(c, w, a) && Runs(c, After(c, w, a), b)
    ensures Runs(c, w, a + b) && After(c, w, a + b) == After(c, After(c, w, a), b)
    decreases |a|
  {
    if a == [] {
      assert a + b == b;
    } else {
      assert (a + b)[1..] == a[1..] + b;
      RunsAppend(c, Apply(c, w, a[0]), a[1..], b);
    }
  }
}
