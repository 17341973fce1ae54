/**
 The indexing scheduler (`src/geek_crawler_rag/scheduler.py` over `status_store.py`): one shared row
 says when the next tick is due, who is running one, and whether an operator has paused it.
 */
module Scheduler {
  import opened Wrappers
  import opened StatusStore
  import opened IndexProtocol
  import opened Indexer

  datatype Schedule = Schedule(
    enabled: bool, interval: nat, next: int, paused: bool, owner: Option<nat>, until: Option<int>,
    lastRun: Option<string>)

  /** What every replica is configured with. */
  datatype Settings = Settings(enabled: bool, interval: nat, lease: nat, maxAttempts: nat)

  // ---- The row operations ----

  /** `scheduler_status`: the row is created due, and follows the configuration in all but the pause. */
  function Synced(row: Option<Schedule>, s: Settings, now: int): Schedule {
    if row.None? then Schedule(s.enabled, s.interval, now, false, None, None, None)
    else row.value.(enabled := s.enabled, interval := s.interval)
  }

  /** The filter of the claim. */
  predicate Due(row: Schedule, now: int) {
    row.enabled && !row.paused && row.next <= now && (row.until.None? || row.until.value <= now)
  }

  function Leased(row: Schedule, owner: nat, lease: nat, now: int): Schedule {
    row.(owner := Some(owner), until := Some(now + lease))
  }

  /** `complete_scheduler_tick`: it matches on the lease owner and on nothing else. */
  function Completed(row: Schedule, owner: nat, interval: nat, run: Option<string>, now: int): Schedule {
    if row.owner == Some(owner)
    then row.(next := now + interval, owner := None, until := Some(now),
              lastRun := if run.Some? then run else row.lastRun)
    else row
  }

  // ---- Over all runs ----

  datatype SchedulerWorld = SchedulerWorld(now: int, row: Option<Schedule>)

  datatype SchedulerEvent =
    | Clock
    | ReadStatus
    | ClaimDue(owner: nat)
    | CompleteBy(owner: nat, run: Option<string>)
    | SetPaused(on: bool)

  predicate Can(w: SchedulerWorld, e: SchedulerEvent) {
    e.ClaimDue? ==> w.row.Some? && Due(w.row.value, w.now)
  }

  function Next(s: Settings, w: SchedulerWorld, e: SchedulerEvent): SchedulerWorld
    requires Can(w, e)
  {
    match e
    case Clock => w.(now := w.now + 1)
    case ReadStatus => w.(row := Some(Synced(w.row, s, w.now)))
    case ClaimDue(owner) => w.(row := Some(Leased(w.row.value, owner, s.lease, w.now)))
    case CompleteBy(owner, run) =>
      if w.row.None? then w else w.(row := Some(Completed(w.row.value, owner, s.interval, run, w.now)))
    case SetPaused(on) => w.(row := Some(Synced(w.row, s, w.now).(paused := on)))
  }

  predicate Possible(s: Settings, w: SchedulerWorld, es: seq<SchedulerEvent>)
    decreases |es|
  {
    es == [] || (Can(w, es[0]) && Possible(s, Next(s, w, es[0]), es[1..]))
  }

  function Reached(s: Settings, w: SchedulerWorld, es: seq<SchedulerEvent>): SchedulerWorld
    requires Possible(s, w, es)
    decreases |es|
  {
    if es == [] then w else Reached(s, Next(s, w, es[0]), es[1..])
  }

  /** Nothing is due before `time`. */
  predicate NotBefore(w: SchedulerWorld, time: int) {
    w.row.Some? && w.row.value.next >= time
  }

  lemma {:induction false} DueDateStays(s: Settings, w: SchedulerWorld, es: seq<SchedulerEvent>, done: int)
    requires Possible(s, w, es) && NotBefore(w, done + s.interval) && w.now >= done
    ensures NotBefore(Reached(s, w, es), done + s.interval) && Reached(s, w, es).now >= w.now
    decreases |es|
  {
    if es != [] {
      DueDateStays(s, Next(s, w, es[0]), es[1..], done);
    }
  }

  /** Whatever happens in between, no tick is claimed within an interval of an accepted completion. */
  lemma Cadence(s: Settings, w: SchedulerWorld, owner: nat, run: Option<string>, es: seq<SchedulerEvent>, claimer: nat)
    requires w.row.Some? && w.row.value.owner == Some(owner)
    requires var v := Next(s, w, CompleteBy(owner, run));
             Possible(s, v, es) && Can(Reached(s, v, es), ClaimDue(claimer))
    ensures Reached(s, Next(s, w, CompleteBy(owner, run)), es).now >= w.now + s.interval
  {
    DueDateStays(s, Next(s, w, CompleteBy(owner, run)), es, w.now);
  }

  predicate Resumes(e: SchedulerEvent) {
    e.SetPaused? && !e.on
  }

  /** A pause lasts until somebody resumes: no tick is claimed, whatever else happens, restarts included. */
  lemma {:induction false} PauseHolds(s: Settings, w: SchedulerWorld, es: seq<SchedulerEvent>, claimer: nat)
    requires w.row.Some? && w.row.value.paused && Possible(s, w, es)
    requires forall i | 0 <= i < |es| :: !Resumes(es[i])
    ensures var v := Reached(s, w, es); v.row.Some? && v.row.value.paused && !Can(v, ClaimDue(claimer))
    ensures forall i | 0 <= i < |es| :: !es[i].ClaimDue?
    decreases |es|
  {
    if es != [] {
      var rest := es[1..];
      assert forall i | 0 <= i < |rest| :: rest[i] == es[i + 1];
      PauseHolds(s, Next(s, w, es[0]), rest, claimer);
      forall i | 0 <= i < |es| ensures !es[i].ClaimDue? {
        assert i > 0 ==> es[i] == rest[i - 1];
      }
    }
  }

  /** A tick in progress: its owner holds the lease until `until`, and the due date is `next`. */
  predicate Ticking(w: SchedulerWorld, owner: nat, until: int, next: int) {
    w.row.Some? && w.row.value.owner == Some(owner) && w.row.value.until == Some(until) && w.row.value.next == next
  }

  /**
   While a tick's lease runs and its owner has not completed it, nobody else claims one and nobody - no
   former owner completing late, no status read, no pause - moves the due date.
   */
  lemma {:induction false} TickIsExclusive(s: Settings, w: SchedulerWorld, es: seq<SchedulerEvent>, owner: nat,
                              until: int,
                                           next: int)
    requires Ticking(w, owner, until, next) && Possible(s, w, es)
    requires forall i | 0 <= i < |es| :: !(es[i].CompleteBy? && es[i].owner == owner)
    requires Reached(s, w, es).now < until
    ensures Ticking(Reached(s, w, es), owner, until, next)
    ensures forall i | 0 <= i < |es| :: !es[i].ClaimDue?
    decreases |es|
  {
    if es != [] {
      var v, rest := Next(s, w, es[0]), es[1..];
      assert forall i | 0 <= i < |rest| :: rest[i] == es[i + 1];
      TimeMovesOn(s, v, rest);
      TickIsExclusive(s, v, rest, owner, until, next);
      forall i | 0 <= i < |es| ensures !es[i].ClaimDue? {
        assert i > 0 ==> es[i] == rest[i - 1];
      }
    }
  }

  lemma {:induction false} TimeMovesOn(s: Settings, w: SchedulerWorld, es: seq<SchedulerEvent>)
    requires Possible(s, w, es)
    ensures Reached(s, w, es).now >= w.now
    decreases |es|
  {
    if es != [] {
      TimeMovesOn(s, Next(s, w, es[0]), es[1..]);
    }
  }

  // ---- The tick as it is programmed ----

  class SchedulerStore {
    var row: Option<Schedule>

    constructor ()
      ensures row == None
    {
      row := None;
    }

    method Status(s: Settings, now: int) returns (status: Schedule)
      modifies this
      ensures status == Synced(old(row), s, now) && row == Some(status)
    {
      if row.None? {
        row := Some(Schedule(s.enabled, s.interval, now, false, None, None, None));
      } else if row.value.enabled != s.enabled || row.value.interval != s.interval {
        row := Some(row.value.(enabled := s.enabled, interval := s.interval));
      }
      status := row.value;
    }

    /** `claim_scheduler_due`. */
    method TryClaimDue(owner: nat, s: Settings, now: int) returns (claimed: bool)
      modifies this
      ensures claimed <==> Due(Synced(old(row), s, now), now)
      ensures claimed <==>
                && s.enabled
                && (old(row).Some? ==>
                      var was := old(row).value;
                      !was.paused && was.next <= now && (was.until.None? || was.until.value <= now))
      ensures row.Some? && row.value.enabled == s.enabled && row.value.interval == s.interval
      ensures claimed ==> row.value.owner == Some(owner) && row.value.until == Some(now + s.lease)
      ensures old(row).Some? ==> row.value.paused == old(row).value.paused && row.value.next == old(row).value.next
      ensures row == Some(if claimed then Leased(Synced(old(row), s, now), owner, s.lease, now)
                          else Synced(old(row), s, now))
    {
      var status := Status(s, now);
      if !s.enabled || status.paused || status.next > now {
        return false;
      }
      claimed := Due(row.value, now);
      if claimed {
        row := Some(Leased(row.value, owner, s.lease, now));
      }
    }

    method CompleteTick(owner: nat, s: Settings, run: Option<string>, now: int)
      modifies this
      ensures row == if old(row).None? then None else Some(Completed(old(row).value, owner, s.interval, run, now))
      ensures if old(row).Some? && old(row).value.owner == Some(owner)
              then
                var was := old(row).value;
                row == Some(Schedule(was.enabled, was.interval, now + s.interval, was.paused, None, Some(now),
                                     if run.Some? then run else was.lastRun))
              else row == old(row)
    {
      if row.Some? && row.value.owner == Some(owner) {
        row := Some(row.value.(next := now + s.interval, owner := None, until := Some(now),
                               lastRun := if run.Some? then run else row.value.lastRun));
      }
    }
  }

  /** What the rest of the system answers during a tick: the oldest content-ready run, and the two gates. */
  datatype Outside = Outside(oldestReady: set<string> -> Option<string>, intakePaused: bool, ready: string -> bool)

  /** The run a tick would queue: the oldest ready one that is neither live, over nor out of attempts. */
  function Candidate(outside: Outside, rows: Rows, s: Settings, now: int): Option<string> {
    outside.oldestReady(ExcludedRunIds(rows, s.maxAttempts, now))
  }

  class IndexScheduler {
    const owner: nat
    const scheduler: SchedulerStore
    const service: IndexService
    const settings: Settings

    constructor (owner: nat, scheduler: SchedulerStore, service: IndexService, settings: Settings)
      ensures this.owner == owner && this.scheduler == scheduler && this.service == service && this.settings == settings
    {
      this.owner, this.scheduler, this.service, this.settings := owner, scheduler, service, settings;
    }

    /** `enqueue_scheduled`: two gates, then a claim without force. */
    method EnqueueScheduled(c: Config, run: string, outside: Outside, now: int, ghost w: World) returns (accepted: bool)
      requires ValidConfig(c) && service.Shows(w) && w.now == now
      modifies service, service.store
      ensures accepted <==>
                (!outside.intakePaused && outside.ready(run) && Claimable(old(service.store.rows), run, false, now))
      ensures service.store.rows ==
              if accepted then Claim(old(service.store.rows), run, service.owner, c.lease, now)
              else old(service.store.rows)
      ensures service.queue == if accepted then old(service.queue) + [run] else old(service.queue)
    {
      if outside.intakePaused || !outside.ready(run) {
        return false;
      }
      ghost var es;
      accepted, es := service.Enqueue(c, run, false, now, w);
    }

    /**
     `tick`. A tick that is claimed enqueues the candidate exactly when no live job exists and both gates are
     open for it - the claim is then never refused - and always ends by releasing the lease and setting the next due
     date an interval ahead. One that is not claimed enqueues nothing.
     */
    method Tick(c: Config, outside: Outside, now: int, ghost w: World) returns (enqueued: Option<string>)
      requires ValidConfig(c) && service.Shows(w) && w.now == now
      requires forall excluded :: outside.oldestReady(excluded).Some? ==>
                outside.oldestReady(excluded).value !in excluded
      modifies scheduler, service, service.store
      ensures var row := Synced(old(scheduler.row), settings, now);
              if Due(row, now)
              then scheduler.row == Some(Completed(Leased(row, owner, settings.lease, now), owner, settings.interval,
                                                   enqueued, now))
                   && scheduler.row.value.next == now + settings.interval && scheduler.row.value.owner == None
              else scheduler.row == Some(row) && enqueued == None
      ensures var rows := old(service.store.rows);
              var candidate := Candidate(outside, rows, settings, now);
              enqueued.Some? <==>
                && Due(Synced(old(scheduler.row), settings, now), now)
                && (forall run | run in rows :: !Active(rows[run]) || Lapsed(rows[run], now))
                && candidate.Some? && !outside.intakePaused && outside.ready(candidate.value)
      ensures enqueued.Some? ==> enqueued == Candidate(outside, old(service.store.rows), settings, now)
      ensures enqueued.None? ==> service.store.rows == old(service.store.rows) && service.queue == old(service.queue)
      ensures enqueued.Some? ==>
                var rows, run := old(service.store.rows), enqueued.value;
                && (run in rows ==> Active(rows[run]) && Lapsed(rows[run], now)
                                    && rows[run].attempt < settings.maxAttempts)
                && service.store.rows == Claim(rows, run, service.owner, c.lease, now)
                && service.queue == old(service.queue) + [run]
    {
      enqueued := None;
      var claimed := scheduler.TryClaimDue(owner, settings, now);
      if !claimed {
        return;
      }
      if !HasActiveJob(service.store.rows, now) {
        var excluded := ExcludedRunIds(service.store.rows, settings.maxAttempts, now);
        var candidate := outside.oldestReady(excluded);
        if candidate.Some? {
          var accepted := EnqueueScheduled(c, candidate.value, outside, now, w);
          if accepted {
            enqueued := candidate;
          }
        }
      }
      scheduler.CompleteTick(owner, settings, enqueued, now);
    }
  }
}
