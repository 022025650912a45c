/** Any number of workers over the queue, in any interleaving: claims are counted and bounded, and while
    workers keep up their heartbeats a job is never executed twice at once. */
module JobProtocol {
  import opened Wrappers
  import opened Jobs

  /** What a worker is doing: about to try for a job it selected, or executing one it claimed. */
  datatype Activity = Trying(target: nat, before: int) | Executing(target: nat)

  /** `claims` counts, for each job, the conditional updates that succeeded; the program keeps no such count. */
  datatype State = State(now: int, jobs: seq<Job>, workers: map<nat, Activity>, claims: seq<nat>)

  datatype Step =
    | Enqueue(ask: Ask)
    | RequestCancel(id: nat)
    | Select(worker: nat)
    | TryClaim(worker: nat)
    | Beat(worker: nat)
    | Checkpoint(worker: nat)
    | End(worker: nat, how: Ending)
    | Die(worker: nat)
    | Reclaim
    | Reap
    | Pass(seconds: nat)

  predicate IsExecuting(s: State, w: nat, id: nat)
  {
    w in s.workers && s.workers[w] == Executing(id)
  }

  predicate Legal(s: State, step: Step)
  {
    match step
    case Enqueue(_) => true
    case RequestCancel(id) => id < |s.jobs|
    case Select(w) => w !in s.workers
    case TryClaim(w) => w in s.workers && s.workers[w].Trying? && s.workers[w].target < |s.jobs|
    case Beat(w) => w in s.workers && s.workers[w].Executing? && s.workers[w].target < |s.jobs|
    case Checkpoint(w) => w in s.workers && s.workers[w].Executing? && s.workers[w].target < |s.jobs|
    case End(w, _) => w in s.workers && s.workers[w].Executing? && s.workers[w].target < |s.jobs|
    case Die(w) => w in s.workers
    case Reclaim => true
    case Reap => true
    case Pass(_) => true
  }

  function Without(workers: map<nat, Activity>, w: nat): map<nat, Activity>
  {
    map v | v in workers && v != w :: workers[v]
  }

  function Bump(claims: seq<nat>, id: nat): seq<nat>
  {
    if id < |claims| then claims[id := claims[id] + 1] else claims
  }

  function Next(s: State, step: Step): State
    requires Legal(s, step)
  {
    match step
    case Enqueue(a) =>
      var (jobs, id) := Enqueued(s.jobs, a, s.now);
      s.(jobs := jobs, claims := if |jobs| > |s.jobs| then s.claims + [0] else s.claims)
    case RequestCancel(id) => s.(jobs := s.jobs[id := Jobs.CancelRequested(s.jobs[id])])
    case Select(w) =>
      var found := Candidate(s.jobs, s.now - JOB_HEARTBEAT_STALE_SECONDS);
      if found.None? then s
      else s.(workers := s.workers[w := Trying(found.value, s.now - JOB_HEARTBEAT_STALE_SECONDS)])
    case TryClaim(w) =>
      var id, before := s.workers[w].target, s.workers[w].before;
      if Runnable(s.jobs[id], before)
      then s.(jobs := s.jobs[id := Claimed(s.jobs[id], s.now)], workers := s.workers[w := Executing(id)], claims := Bump(s.claims, id))
      else s.(workers := Without(s.workers, w))
    case Beat(w) =>
      var id := s.workers[w].target;
      // The background heartbeat touches only a running row.
      if s.jobs[id].status == Running then s.(jobs := s.jobs[id := s.jobs[id].(heartbeatAt := Some(s.now))]) else s
    case Checkpoint(w) =>
      // The handler's own heartbeat touches the row whatever its status.
      var id := s.workers[w].target;
      s.(jobs := s.jobs[id := s.jobs[id].(heartbeatAt := Some(s.now))])
    case End(w, how) =>
      var id := s.workers[w].target;
      s.(jobs := s.jobs[id := Ended(s.jobs[id], how)], workers := Without(s.workers, w))
    case Die(w) => s.(workers := Without(s.workers, w))
    case Reclaim => s.(jobs := ReclaimAll(s.jobs, s.now - JOB_HEARTBEAT_STALE_SECONDS))
    case Reap => s.(jobs := ReapAll(s.jobs, s.now - JOB_TIMEOUT_SECONDS))
    case Pass(seconds) => s.(now := s.now + seconds)
  }

  predicate LegalRun(s: State, steps: seq<Step>)
    decreases |steps|
  {
    steps == [] || (Legal(s, steps[0]) && LegalRun(Next(s, steps[0]), steps[1..]))
  }

  function Run(s: State, steps: seq<Step>): State
    requires LegalRun(s, steps)
    decreases |steps|
  {
    if steps == [] then s else Run(Next(s, steps[0]), steps[1..])
  }

  const EMPTY := State(0, [], map[], [])

  // --- Claims are attempts, and attempts are bounded ------------------------------------------------

  function Most(j: Job): int
  {
    if j.maxAttempts < 1 then 1 else j.maxAttempts
  }

  /** Attempts stay within bounds, and a queued job still has one. */
  predicate AttemptsOk(j: Job)
  {
    j.attempts <= Most(j) && (j.status == Queued ==> j.attempts == 0 || j.attempts < j.maxAttempts)
  }

  predicate Counted(s: State)
  {
    && |s.claims| == |s.jobs|
    && (forall i :: 0 <= i < |s.jobs| ==> s.claims[i] == s.jobs[i].attempts && AttemptsOk(s.jobs[i]))
    && (forall w :: w in s.workers ==> s.workers[w].target < |s.jobs|)
    && (forall w :: w in s.workers && s.workers[w].Executing? ==> s.jobs[s.workers[w].target].attempts >= 1)
  }

  /** Steps that claim nothing: attempts stay, a row is requeued only with an attempt left, and workers at most leave. */
  lemma ClaimlessKeepsCount(s: State, t: State)
    requires Counted(s) && t.claims == s.claims && |t.jobs| == |s.jobs|
    requires forall i :: 0 <= i < |s.jobs| ==> t.jobs[i].attempts == s.jobs[i].attempts && AttemptsOk(t.jobs[i])
    requires forall w :: w in t.workers ==> t.workers[w].target < |t.jobs|
    requires forall w :: w in t.workers && t.workers[w].Executing? ==> w in s.workers && s.workers[w] == t.workers[w]
    ensures Counted(t)
  {
  }

  lemma EndKeepsCount(s: State, w: nat, how: Ending)
    requires Counted(s) && Legal(s, End(w, how))
    ensures Counted(Next(s, End(w, how)))
  {
    var t := Next(s, End(w, how));
    forall i | 0 <= i < |s.jobs| ensures t.jobs[i].attempts == s.jobs[i].attempts && AttemptsOk(t.jobs[i]) {
      assert AttemptsOk(s.jobs[i]);
    }
    ClaimlessKeepsCount(s, t);
  }

  lemma SweepKeepsCount(s: State, step: Step)
    requires Counted(s) && (step.Reclaim? || step.Reap?)
    ensures Counted(Next(s, step))
  {
    var t := Next(s, step);
    forall i | 0 <= i < |s.jobs| ensures t.jobs[i].attempts == s.jobs[i].attempts && AttemptsOk(t.jobs[i]) {
      assert AttemptsOk(s.jobs[i]);
    }
    ClaimlessKeepsCount(s, t);
  }

  lemma StepKeepsCount(s: State, step: Step)
    requires Counted(s) && Legal(s, step)
    ensures Counted(Next(s, step))
  {
    match step
    case Enqueue(a) => EnqueueAppends(s, a);
    case TryClaim(w) => ClaimKeepsCount(s, w);
    case End(w, how) => EndKeepsCount(s, w, how);
    case Reclaim => SweepKeepsCount(s, step);
    case Reap => SweepKeepsCount(s, step);
    case _ =>
  }

  lemma EnqueueAppends(s: State, a: Ask)
    requires Counted(s)
    ensures var t := Next(s, Enqueue(a));
      t == s || (t.jobs == s.jobs + [NewJob(a, s.now)] && t.claims == s.claims + [0] && t.workers == s.workers && t.now == s.now)
    ensures Counted(Next(s, Enqueue(a)))
  {
  }

  lemma ClaimKeepsCount(s: State, w: nat)
    requires Counted(s) && Legal(s, TryClaim(w))
    ensures Counted(Next(s, TryClaim(w)))
  {
    var id := s.workers[w].target;
    if Runnable(s.jobs[id], s.workers[w].before) {
      var t := Next(s, TryClaim(w));
      forall i | 0 <= i < |t.jobs| ensures t.claims[i] == t.jobs[i].attempts && AttemptsOk(t.jobs[i]) {
        assert AttemptsOk(s.jobs[i]);
      }
    }
  }

  /** However workers interleave, crash and time out, the successful claims of a job are its attempts, and never
      more than it may have. */
  lemma {:induction false} ClaimsAreAttempts(s: State, steps: seq<Step>)
    requires Counted(s) && LegalRun(s, steps)
    ensures Counted(Run(s, steps))
    ensures forall i :: 0 <= i < |Run(s, steps).jobs| ==>
      Run(s, steps).claims[i] == Run(s, steps).jobs[i].attempts <= Most(Run(s, steps).jobs[i])
    decreases |steps|
  {
    if steps != [] {
      StepKeepsCount(s, steps[0]);
      ClaimsAreAttempts(Next(s, steps[0]), steps[1..]);
    }
  }

  // --- At most one worker executes a job -----------------------------------------------------------

  /** Every job a worker is executing, and that is still marked running, has been heard from in time. */
  predicate Timely(s: State)
  {
    forall w :: w in s.workers && s.workers[w].Executing? && s.workers[w].target < |s.jobs| ==>
      InTime(s.jobs[s.workers[w].target], s.now)
  }

  predicate InTime(j: Job, now: int)
  {
    j.status == Running ==> j.heartbeatAt.Some? && j.heartbeatAt.value >= now - JOB_HEARTBEAT_STALE_SECONDS
  }

  predicate TimelyRun(s: State, steps: seq<Step>)
    requires LegalRun(s, steps)
    decreases |steps|
  {
    Timely(s) && (steps == [] || TimelyRun(Next(s, steps[0]), steps[1..]))
  }

  ghost predicate Exclusive(s: State)
  {
    forall v, w, id :: IsExecuting(s, v, id) && IsExecuting(s, w, id) ==> v == w
  }

  /** An executed job is running or was timed out; a candidate was judged stale no later than now. */
  predicate Held(s: State)
  {
    forall w :: w in s.workers ==>
      && s.workers[w].target < |s.jobs|
      && (s.workers[w].Executing? ==> HeldStatus(s.jobs[s.workers[w].target].status))
      && (s.workers[w].Trying? ==> s.workers[w].before <= s.now - JOB_HEARTBEAT_STALE_SECONDS)
  }

  predicate HeldStatus(st: JobStatus)
  {
    st == Running || st == TimedOut
  }

  ghost predicate Leased(s: State)
  {
    Held(s) && Exclusive(s)
  }

  /** A job that a worker is executing cannot be claimed. */
  lemma ExecutedIsNotRunnable(s: State, id: nat, before: int, w: nat)
    requires Leased(s) && Timely(s) && IsExecuting(s, w, id) && before <= s.now - JOB_HEARTBEAT_STALE_SECONDS
    ensures id < |s.jobs| && !Runnable(s.jobs[id], before) && !(s.jobs[id].status == Running && Stale(s.jobs[id], before))
  {
    assert s.workers[w].Executing?;
    assert InTime(s.jobs[id], s.now);
  }

  lemma ClaimKeepsLease(s: State, w: nat)
    requires Leased(s) && Timely(s) && Legal(s, TryClaim(w))
    ensures Leased(Next(s, TryClaim(w)))
  {
    var id, before := s.workers[w].target, s.workers[w].before;
    var t := Next(s, TryClaim(w));
    forall v | IsExecuting(s, v, id) ensures !Runnable(s.jobs[id], before) {
      ExecutedIsNotRunnable(s, id, before, v);
    }
    if Runnable(s.jobs[id], before) {
      ClaimedAlone(s, t, w, id);
    } else {
      FewerWorkersKeepLease(s, t, w);
    }
  }

  lemma ClaimedAlone(s: State, t: State, w: nat, id: nat)
    requires Leased(s) && id < |s.jobs| && forall v :: !IsExecuting(s, v, id)
    requires t.workers == s.workers[w := Executing(id)] && t.now == s.now
    requires t.jobs == s.jobs[id := Claimed(s.jobs[id], s.now)]
    ensures Leased(t)
  {
    forall v, x | IsExecuting(t, v, x) ensures (v == w && x == id) || (v != w && x != id && IsExecuting(s, v, x)) {
      assert v != w ==> IsExecuting(s, v, x);
    }
  }

  lemma FewerWorkersKeepLease(s: State, t: State, w: nat)
    requires Leased(s) && t == s.(workers := Without(s.workers, w))
    ensures Leased(t)
  {
    forall v, u, x | IsExecuting(t, v, x) && IsExecuting(t, u, x) ensures v == u {
      assert IsExecuting(s, v, x) && IsExecuting(s, u, x);
    }
  }

  /** Ending a job touches no job that another worker is executing. */
  lemma EndKeepsLease(s: State, w: nat, how: Ending)
    requires Leased(s) && Legal(s, End(w, how))
    ensures Leased(Next(s, End(w, how)))
  {
    var id := s.workers[w].target;
    var t := Next(s, End(w, how));
    assert IsExecuting(s, w, id);
    forall v | v in t.workers && t.workers[v].Executing? ensures t.workers[v].target != id {
      assert IsExecuting(s, v, t.workers[v].target);
    }
    forall v, u, x | IsExecuting(t, v, x) && IsExecuting(t, u, x) ensures v == u {
      assert IsExecuting(s, v, x) && IsExecuting(s, u, x);
    }
  }

  lemma ReclaimKeepsLease(s: State)
    requires Leased(s) && Timely(s)
    ensures Leased(Next(s, Reclaim))
  {
    var t := Next(s, Reclaim);
    forall w | w in t.workers && t.workers[w].Executing? ensures t.jobs[t.workers[w].target] == s.jobs[t.workers[w].target] {
      ExecutedIsNotRunnable(s, s.workers[w].target, s.now - JOB_HEARTBEAT_STALE_SECONDS, w);
    }
    forall v, u, x | IsExecuting(t, v, x) && IsExecuting(t, u, x) ensures v == u {
      assert IsExecuting(s, v, x) && IsExecuting(s, u, x);
    }
  }

  /** Steps that move no worker and keep every executed job running or timed out. */
  lemma SameWorkersKeepLease(s: State, t: State)
    requires Leased(s) && t.workers == s.workers && s.now <= t.now && |s.jobs| <= |t.jobs|
    requires forall i :: 0 <= i < |s.jobs| && HeldStatus(s.jobs[i].status) ==> HeldStatus(t.jobs[i].status)
    ensures Leased(t)
  {
    forall v, u, x | IsExecuting(t, v, x) && IsExecuting(t, u, x) ensures v == u {
      assert IsExecuting(s, v, x) && IsExecuting(s, u, x);
    }
  }

  lemma SelectKeepsLease(s: State, w: nat)
    requires Leased(s) && Legal(s, Select(w))
    ensures Leased(Next(s, Select(w)))
  {
    var t := Next(s, Select(w));
    forall v, u, x | IsExecuting(t, v, x) && IsExecuting(t, u, x) ensures v == u {
      assert IsExecuting(s, v, x) && IsExecuting(s, u, x);
    }
  }

  lemma StepKeepsLease(s: State, step: Step)
    requires Leased(s) && Timely(s) && Legal(s, step)
    ensures Leased(Next(s, step))
  {
    match step
    case Enqueue(a) => SameWorkersKeepLease(s, Next(s, step));
    case RequestCancel(id) => SameWorkersKeepLease(s, Next(s, step));
    case Select(w) => SelectKeepsLease(s, w);
    case TryClaim(w) => ClaimKeepsLease(s, w);
    case Beat(w) => SameWorkersKeepLease(s, Next(s, step));
    case Checkpoint(w) => SameWorkersKeepLease(s, Next(s, step));
    case End(w, how) => EndKeepsLease(s, w, how);
    case Die(w) => FewerWorkersKeepLease(s, Next(s, step), w);
    case Reclaim => ReclaimKeepsLease(s);
    case Reap => SameWorkersKeepLease(s, Next(s, step));
    case Pass(seconds) => SameWorkersKeepLease(s, Next(s, step));
  }

  /** Mutual exclusion: as long as every executing worker is heard from within the stale bound, no interleaving
      of selects, claims, cancels, crashes, reclaims and timeouts has two workers executing one job. */
  lemma {:induction false} AtMostOneExecutes(s: State, steps: seq<Step>)
    requires Leased(s) && LegalRun(s, steps) && TimelyRun(s, steps)
    ensures Leased(Run(s, steps))
    decreases |steps|
  {
    if steps != [] {
      StepKeepsLease(s, steps[0]);
      AtMostOneExecutes(Next(s, steps[0]), steps[1..]);
    }
  }

  /** The guarantee from an empty queue. */
  lemma QueueIsSafe(steps: seq<Step>, v: nat, w: nat, id: nat)
    requires LegalRun(EMPTY, steps) && TimelyRun(EMPTY, steps)
    requires IsExecuting(Run(EMPTY, steps), v, id) && IsExecuting(Run(EMPTY, steps), w, id)
    ensures v == w
    ensures var j := Run(EMPTY, steps).jobs; id < |j| && 1 <= j[id].attempts <= Most(j[id])
  {
    ClaimsAreAttempts(EMPTY, steps);
    AtMostOneExecutes(EMPTY, steps);
  }

  // --- Timing out is not final ------------------------------------------------------------------------

  /** A timed-out job changes status in one step exactly when a worker is still executing it: that worker writes
      its own outcome over the timeout. */
  lemma TimedOutIsOverwrittenExactly(s: State, id: nat)
    requires Counted(s) && id < |s.jobs| && s.jobs[id].status == TimedOut
    ensures (exists step :: Legal(s, step) && Next(s, step).jobs[id].status != TimedOut)
       <==> (exists w :: IsExecuting(s, w, id))
  {
    if step :| Legal(s, step) && Next(s, step).jobs[id].status != TimedOut {
      OnlyItsWorkerOverwrites(s, step, id);
    }
    if w :| IsExecuting(s, w, id) {
      var step := End(w, Returned);
      assert Legal(s, step) && Next(s, step).jobs[id].status != TimedOut;
    }
  }

  lemma OnlyItsWorkerOverwrites(s: State, step: Step, id: nat)
    requires Counted(s) && Legal(s, step) && id < |s.jobs| && s.jobs[id].status == TimedOut
    requires Next(s, step).jobs[id].status != TimedOut
    ensures step.End? && IsExecuting(s, step.worker, id)
  {
    if step.Enqueue? {
      EnqueueAppends(s, step.ask);
    }
  }

  // --- One run per client -------------------------------------------------------------------------------

  predicate SameClientWork(i: Job, j: Job)
  {
    SameWork(j, i.client, i.kind)
  }

  /** At most one job per client and kind is queued or running. */
  predicate OneActive(jobs: seq<Job>)
  {
    forall i, j :: 0 <= i < j < |jobs| && SameClientWork(jobs[i], jobs[j]) ==> !(Active(jobs[i]) && Active(jobs[j]))
  }

  predicate Single(s: State)
  {
    Counted(s) && OneActive(s.jobs) && forall j :: j in s.jobs ==> j.maxAttempts <= 1
  }

  /** Jobs keep their client and kind, and none becomes active again. */
  predicate NoneRevived(before: seq<Job>, after: seq<Job>)
  {
    |before| == |after| && forall i :: 0 <= i < |before| ==>
      && after[i].client == before[i].client && after[i].kind == before[i].kind && after[i].maxAttempts == before[i].maxAttempts
      && (Active(after[i]) ==> Active(before[i]))
  }

  lemma NoneRevivedKeepsOneActive(before: seq<Job>, after: seq<Job>)
    requires OneActive(before) && NoneRevived(before, after)
    ensures OneActive(after)
  {
    forall i, j | 0 <= i < j < |after| && SameClientWork(after[i], after[j]) ensures !(Active(after[i]) && Active(after[j])) {
      assert SameClientWork(before[i], before[j]);
    }
  }

  /** With a single attempt, no step brings a finished job back. */
  lemma SingleAttemptRevivesNone(s: State, step: Step)
    requires Single(s) && Legal(s, step) && !step.Enqueue?
    ensures NoneRevived(s.jobs, Next(s, step).jobs)
  {
    forall i | 0 <= i < |s.jobs| ensures s.jobs[i].maxAttempts <= 1 {
      assert s.jobs[i] in s.jobs;
    }
  }

  lemma DedupedEnqueue(jobs: seq<Job>, a: Ask, now: int)
    requires OneActive(jobs) && a.dedupe
    ensures OneActive(Enqueued(jobs, a, now).0)
  {
    var after := Enqueued(jobs, a, now).0;
    forall i, j | 0 <= i < j < |after| && SameClientWork(after[i], after[j]) ensures !(Active(after[i]) && Active(after[j])) {
      if j == |jobs| {
        assert after[i] in jobs;
      } else {
        assert SameClientWork(jobs[i], jobs[j]);
      }
    }
  }

  predicate Deduped(step: Step)
  {
    step.Enqueue? ==> step.ask.dedupe && step.ask.maxAttempts <= 1
  }

  lemma StepKeepsSingle(s: State, step: Step)
    requires Single(s) && Legal(s, step) && Deduped(step)
    ensures Single(Next(s, step))
  {
    StepKeepsCount(s, step);
    var t := Next(s, step);
    if step.Enqueue? {
      EnqueueAppends(s, step.ask);
      DedupedEnqueue(s.jobs, step.ask, s.now);
    } else {
      SingleAttemptRevivesNone(s, step);
      NoneRevivedKeepsOneActive(s.jobs, t.jobs);
      forall j | j in t.jobs ensures j.maxAttempts <= 1 {
        var i :| 0 <= i < |t.jobs| && t.jobs[i] == j;
        assert s.jobs[i] in s.jobs;
      }
    }
  }

  /** When every job is queued with deduplication and a single attempt, no run ever has two queued or running for
      the same client and kind. */
  lemma {:induction false} OneRunPerClient(s: State, steps: seq<Step>)
    requires Single(s) && LegalRun(s, steps) && forall step :: step in steps ==> Deduped(step)
    ensures OneActive(Run(s, steps).jobs)
    decreases |steps|
  {
    if steps != [] {
      assert steps[0] in steps;
      StepKeepsSingle(s, steps[0]);
      OneRunPerClient(Next(s, steps[0]), steps[1..]);
    }
  }

  function Retried(n: int): Ask
  {
    Ask(Some(7), "analysis_run", 100, n, true)
  }

  function RetriedJob(n: int, status: JobStatus): Job
  {
    Job(Some(7), "analysis_run", status, 100, 0, 1, n, Some(0), Some(0), false)
  }

  function QueuedState(n: int): State
  {
    State(0, [NewJob(Retried(n), 0)], map[], [0])
  }

  function ChosenState(n: int): State
  {
    State(0, [NewJob(Retried(n), 0)], map[1 := Trying(0, 0 - JOB_HEARTBEAT_STALE_SECONDS)], [0])
  }

  function BusyState(n: int, now: int, status: JobStatus): State
  {
    State(now, [RetriedJob(n, status)], map[1 := Executing(0)], [1])
  }

  function ReplacedState(n: int): State
  {
    State(1000, [RetriedJob(n, TimedOut), NewJob(Retried(n), 1000)], map[1 := Executing(0)], [1, 0])
  }

  /** Every job is queued with deduplication and this many attempts. */
  predicate AllDeduped(steps: seq<Step>, n: int)
  {
    forall step :: step in steps && step.Enqueue? ==> step.ask.dedupe && step.ask.maxAttempts == n
  }

  /** A run with every job deduplicated that ends with two active for one client. */
  predicate DoublesUp(s: State, steps: seq<Step>, n: int)
  {
    LegalRun(s, steps) && AllDeduped(steps, n) && !OneActive(Run(s, steps).jobs)
  }

  predicate Goes(s: State, step: Step, t: State, n: int)
  {
    Legal(s, step) && Next(s, step) == t && AllDeduped([step], n)
  }

  lemma Prepend(s: State, step: Step, t: State, rest: seq<Step>, n: int)
    requires Goes(s, step, t, n) && DoublesUp(t, rest, n)
    ensures DoublesUp(s, [step] + rest, n)
  {
    assert ([step] + rest)[1..] == rest;
    assert step in [step];
  }

  lemma QueuedOnce(n: int)
    ensures Goes(EMPTY, Enqueue(Retried(n)), QueuedState(n), n)
  {
  }

  lemma ChosenOnce(n: int)
    ensures Goes(QueuedState(n), Select(1), ChosenState(n), n)
  {
    assert NewJob(Retried(n), 0) in QueuedState(n).jobs;
  }

  lemma ClaimedOnce(n: int)
    ensures Goes(ChosenState(n), TryClaim(1), BusyState(n, 0, Running), n)
  {
  }

  lemma ExpiredOnce(n: int)
    ensures Goes(BusyState(n, 0, Running), Step.Pass(1000), BusyState(n, 1000, Running), n)
    ensures Goes(BusyState(n, 1000, Running), Reap, BusyState(n, 1000, TimedOut), n)
  {
  }

  lemma ReplacedOnce(n: int)
    ensures Goes(BusyState(n, 1000, TimedOut), Enqueue(Retried(n)), ReplacedState(n), n)
  {
    assert ReplacedState(n).jobs == BusyState(n, 1000, TimedOut).jobs + [NewJob(Retried(n), 1000)];
    assert ReplacedState(n).claims == BusyState(n, 1000, TimedOut).claims + [0];
  }

  lemma RevivedOnce(n: int) returns (t: State)
    requires n >= 2
    ensures Goes(ReplacedState(n), End(1, Raised), t, n) && DoublesUp(t, [], n)
  {
    t := Next(ReplacedState(n), End(1, Raised));
    assert SameClientWork(t.jobs[0], t.jobs[1]) && Active(t.jobs[0]) && Active(t.jobs[1]);
  }

  lemma FromBusy(n: int) returns (steps: seq<Step>)
    requires n >= 2
    ensures DoublesUp(BusyState(n, 0, Running), steps, n)
  {
    var t := RevivedOnce(n);
    ReplacedOnce(n);
    ExpiredOnce(n);
    Prepend(ReplacedState(n), End(1, Raised), t, [], n);
    steps := [End(1, Raised)] + [];
    Prepend(BusyState(n, 1000, TimedOut), Enqueue(Retried(n)), ReplacedState(n), steps, n);
    steps := [Enqueue(Retried(n))] + steps;
    Prepend(BusyState(n, 1000, Running), Reap, BusyState(n, 1000, TimedOut), steps, n);
    steps := [Reap] + steps;
    Prepend(BusyState(n, 0, Running), Step.Pass(1000), BusyState(n, 1000, Running), steps, n);
    steps := [Step.Pass(1000)] + steps;
  }

  /** With retries allowed it fails: a run is timed out while its worker is still busy, a second is queued in its
      place, and the first worker then raises and puts its job back in the queue. */
  lemma RetriedTimeoutDoublesUp(n: int) returns (steps: seq<Step>)
    requires n >= 2
    ensures DoublesUp(EMPTY, steps, n)
  {
    steps := FromBusy(n);
    ClaimedOnce(n);
    Prepend(ChosenState(n), TryClaim(1), BusyState(n, 0, Running), steps, n);
    steps := [TryClaim(1)] + steps;
    ChosenOnce(n);
    Prepend(QueuedState(n), Select(1), ChosenState(n), steps, n);
    steps := [Select(1)] + steps;
    QueuedOnce(n);
    Prepend(EMPTY, Enqueue(Retried(n)), QueuedState(n), steps, n);
    steps := [Enqueue(Retried(n))] + steps;
  }

  /** Deduplication keeps one active run per client over every run exactly when jobs get a single attempt. */
  lemma DedupeHoldsExactly(n: int)
    ensures (forall steps :: !DoublesUp(EMPTY, steps, n)) <==> n <= 1
  {
    if n <= 1 {
      forall steps ensures !DoublesUp(EMPTY, steps, n) {
        if LegalRun(EMPTY, steps) && AllDeduped(steps, n) {
          OneRunPerClient(EMPTY, steps);
        }
      }
    } else {
      var steps := RetriedTimeoutDoublesUp(n);
    }
  }
}
