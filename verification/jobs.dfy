/** The durable job queue: rows, and what each operation does to them in place.

    Each operation is one transaction, except claiming: a worker selects a candidate and later tries a
    conditional update, and anything may happen in between. Instants are seconds. */
module Jobs {
  import opened Wrappers

  const JOB_HEARTBEAT_STALE_SECONDS: int := 120
  const JOB_TIMEOUT_SECONDS: int := 900

  datatype JobStatus = Queued | Running | Succeeded | Failed | Cancelled | TimedOut

  datatype Job = Job(
    client: Option<int>, kind: string, status: JobStatus, priority: int, queuedAt: int,
    attempts: nat, maxAttempts: int, startedAt: Option<int>, heartbeatAt: Option<int>, cancelRequested: bool)

  /** How a handler ends: it returns, it notices the cancellation, it raises, or there is none for the job. */
  datatype Ending = Returned | Stopped | Raised | NoHandler

  predicate Active(j: Job)
  {
    j.status == Queued || j.status == Running
  }

  predicate Final(s: JobStatus)
  {
    s == Succeeded || s == Failed || s == Cancelled || s == TimedOut
  }

  /** No sign of life since `before`. */
  predicate Stale(j: Job, before: int)
  {
    || (j.heartbeatAt.Some? && j.heartbeatAt.value < before)
    || (j.heartbeatAt.None? && j.startedAt.Some? && j.startedAt.value < before)
  }

  predicate Runnable(j: Job, before: int)
  {
    j.status == Queued || (j.status == Running && j.attempts < j.maxAttempts && Stale(j, before))
  }

  predicate SameWork(j: Job, client: Option<int>, kind: string)
  {
    client.Some? && j.client == client && j.kind == kind
  }

  // --- What each operation does to a row ---------------------------------------------------------

  function Claimed(j: Job, now: int): Job
  {
    j.(status := Running, startedAt := if j.startedAt.Some? then j.startedAt else Some(now),
       heartbeatAt := Some(now), attempts := j.attempts + 1)
  }

  function CancelRequested(j: Job): Job
  {
    if Final(j.status) then j
    else j.(cancelRequested := true, status := if j.status == Queued then Cancelled else j.status)
  }

  function Reclaimed(j: Job, before: int): Job
  {
    if j.status != Running || !Stale(j, before) then j
    else if j.attempts < j.maxAttempts then j.(status := Queued, heartbeatAt := None)
    else j.(status := Failed)
  }

  function Reaped(j: Job, cutoff: int): Job
  {
    if j.status == Running && j.startedAt.Some? && j.startedAt.value < cutoff then j.(status := TimedOut) else j
  }

  /** The worker writes the outcome without checking that the job is still its own. */
  function Ended(j: Job, how: Ending): Job
  {
    match how
    case Returned => j.(status := if j.cancelRequested then Cancelled else Succeeded)
    case Stopped => j.(status := Cancelled)
    case Raised => if j.attempts < j.maxAttempts then j.(status := Queued, heartbeatAt := None) else j.(status := Failed)
    case NoHandler => j.(status := Failed)
  }

  // --- Choosing ------------------------------------------------------------------------------------

  /** Ahead in the queue: by priority, then by when it was queued. */
  predicate Before(a: Job, b: Job)
  {
    a.priority < b.priority || (a.priority == b.priority && a.queuedAt < b.queuedAt)
  }

  /** The runnable job at the head of the queue. */
  function Candidate(jobs: seq<Job>, before: int): (r: Option<nat>)
    ensures r.None? <==> forall j :: j in jobs ==> !Runnable(j, before)
    ensures r.Some? ==> r.value < |jobs| && Runnable(jobs[r.value], before)
    ensures r.Some? ==> forall j :: j in jobs && Runnable(j, before) ==> !Before(j, jobs[r.value])
  {
    if jobs == [] then None
    else
      var n := |jobs| - 1;
      assert jobs == jobs[..n] + [jobs[n]];
      var best := Candidate(jobs[..n], before);
      if !Runnable(jobs[n], before) then best
      else if best.None? || Before(jobs[n], jobs[best.value]) then Some(n) else best
  }

  /** A job already queued or running for the same client and kind. */
  function Existing(jobs: seq<Job>, client: Option<int>, kind: string): (r: Option<nat>)
    ensures r.Some? ==> r.value < |jobs| && Active(jobs[r.value]) && SameWork(jobs[r.value], client, kind)
    ensures r.None? ==> forall j :: j in jobs && SameWork(j, client, kind) ==> !Active(j)
  {
    if jobs == [] then None
    else
      var n := |jobs| - 1;
      assert jobs == jobs[..n] + [jobs[n]];
      var earlier := Existing(jobs[..n], client, kind);
      if earlier.Some? then earlier
      else if Active(jobs[n]) && SameWork(jobs[n], client, kind) then Some(n) else None
  }

  function ReclaimAll(jobs: seq<Job>, before: int): (r: seq<Job>)
    ensures |r| == |jobs| && forall i :: 0 <= i < |jobs| ==> r[i] == Reclaimed(jobs[i], before)
  {
    if jobs == [] then [] else ReclaimAll(jobs[..|jobs| - 1], before) + [Reclaimed(jobs[|jobs| - 1], before)]
  }

  function ReapAll(jobs: seq<Job>, cutoff: int): (r: seq<Job>)
    ensures |r| == |jobs| && forall i :: 0 <= i < |jobs| ==> r[i] == Reaped(jobs[i], cutoff)
  {
    if jobs == [] then [] else ReapAll(jobs[..|jobs| - 1], cutoff) + [Reaped(jobs[|jobs| - 1], cutoff)]
  }

  datatype Ask = Ask(client: Option<int>, kind: string, priority: int, maxAttempts: int, dedupe: bool)

  function NewJob(a: Ask, now: int): Job
  {
    Job(a.client, a.kind, Queued, a.priority, now, 0, a.maxAttempts, None, None, false)
  }

  function Enqueued(jobs: seq<Job>, a: Ask, now: int): (seq<Job>, nat)
  {
    var existing := Existing(jobs, a.client, a.kind);
    if a.dedupe && existing.Some? then (jobs, existing.value) else (jobs + [NewJob(a, now)], |jobs|)
  }

  // --- The table, worked on in place -------------------------------------------------------------

  class JobQueue {
    var jobs: seq<Job>

    constructor ()
      ensures jobs == []
    {
      jobs := [];
    }

    /** Queue a job, or return the one already queued or running for the same work. */
    method Enqueue(a: Ask, now: int) returns (id: nat)
      modifies this
      ensures (jobs, id) == Enqueued(old(jobs), a, now)
      ensures id < |jobs| && (a.client.Some? && a.dedupe ==> SameWork(jobs[id], a.client, a.kind) && Active(jobs[id]))
    {
      if a.dedupe && a.client.Some? {
        var i := 0;
        while i < |jobs|
          invariant 0 <= i <= |jobs| && jobs == old(jobs)
          invariant Existing(jobs[..i], a.client, a.kind).None?
        {
          assert jobs[..i + 1][..i] == jobs[..i];
          if SameWork(jobs[i], a.client, a.kind) && Active(jobs[i]) {
            ExistingPrefix(jobs, i + 1, a.client, a.kind);
            return i;
          }
          i := i + 1;
        }
        assert jobs[..|jobs|] == jobs;
      }
      id := |jobs|;
      jobs := jobs + [NewJob(a, now)];
    }

    /** Ask a job to stop; false when it has already finished. */
    method RequestCancel(id: nat) returns (asked: bool)
      requires id < |jobs|
      modifies this
      ensures jobs == old(jobs)[id := CancelRequested(old(jobs)[id])]
      ensures asked <==> !Final(old(jobs)[id].status)
    {
      if Final(jobs[id].status) {
        return false;
      }
      jobs := jobs[id := jobs[id].(cancelRequested := true)];
      if jobs[id].status == Queued {
        jobs := jobs[id := jobs[id].(status := Cancelled)];
      }
      asked := true;
    }

    /** The first half of a claim: which job to try for. */
    method SelectCandidate(before: int) returns (found: Option<nat>)
      ensures found == Candidate(jobs, before)
    {
      found := None;
      for i := 0 to |jobs|
        invariant found == Candidate(jobs[..i], before)
      {
        assert jobs[..i + 1][..i] == jobs[..i];
        if Runnable(jobs[i], before) && (found.None? || Before(jobs[i], jobs[found.value])) {
          found := Some(i);
        }
      }
      assert jobs[..|jobs|] == jobs;
    }

    /** The second half: a conditional update, which loses when the job is no longer runnable. */
    method UpdateCandidate(id: nat, before: int, now: int) returns (won: bool)
      requires id < |jobs|
      modifies this
      ensures won <==> Runnable(old(jobs)[id], before)
      ensures jobs == if won then old(jobs)[id := Claimed(old(jobs)[id], now)] else old(jobs)
    {
      if !Runnable(jobs[id], before) {
        return false;
      }
      jobs := jobs[id := Claimed(jobs[id], now)];
      won := true;
    }

    /** Record liveness; false when cancellation was asked for. */
    method Heartbeat(id: nat, now: int) returns (goOn: bool)
      requires id < |jobs|
      modifies this
      ensures jobs == old(jobs)[id := old(jobs)[id].(heartbeatAt := Some(now))]
      ensures goOn <==> !jobs[id].cancelRequested
    {
      jobs := jobs[id := jobs[id].(heartbeatAt := Some(now))];
      goOn := !jobs[id].cancelRequested;
    }

    /** Write how a handler ended. */
    method Finish(id: nat, how: Ending)
      requires id < |jobs|
      modifies this
      ensures jobs == old(jobs)[id := Ended(old(jobs)[id], how)]
    {
      var j := jobs[id];
      match how {
        case NoHandler => jobs := jobs[id := j.(status := Failed)];
        case Returned =>
          if j.cancelRequested {
            jobs := jobs[id := j.(status := Cancelled)];
          } else {
            jobs := jobs[id := j.(status := Succeeded)];
          }
        case Stopped => jobs := jobs[id := j.(status := Cancelled)];
        case Raised =>
          if j.attempts < j.maxAttempts {
            jobs := jobs[id := j.(status := Queued, heartbeatAt := None)];
          } else {
            jobs := jobs[id := j.(status := Failed)];
          }
      }
    }

    /** Requeue running jobs whose worker went quiet, or fail them when out of attempts. */
    method ReclaimOrphanedJobs(before: int) returns (reclaimed: nat)
      modifies this
      ensures jobs == ReclaimAll(old(jobs), before)
      ensures reclaimed == |set i | 0 <= i < |old(jobs)| && old(jobs)[i].status == Running && Stale(old(jobs)[i], before)|
    {
      reclaimed := 0;
      ghost var touched: set<int> := {};
      var i := 0;
      while i < |jobs|
        invariant 0 <= i <= |jobs| == |old(jobs)|
        invariant forall k :: 0 <= k < i ==> jobs[k] == Reclaimed(old(jobs)[k], before)
        invariant forall k :: i <= k < |jobs| ==> jobs[k] == old(jobs)[k]
        invariant touched == set k | 0 <= k < i && old(jobs)[k].status == Running && Stale(old(jobs)[k], before)
        invariant reclaimed == |touched|
      {
        var j := jobs[i];
        if j.status == Running && Stale(j, before) {
          if j.attempts < j.maxAttempts {
            jobs := jobs[i := j.(status := Queued, heartbeatAt := None)];
          } else {
            jobs := jobs[i := j.(status := Failed)];
          }
          reclaimed := reclaimed + 1;
          touched := touched + {i};
        }
        i := i + 1;
      }
    }

    /** Time out running jobs that were started too long ago. */
    method ReapStaleJobs(cutoff: int)
      modifies this
      ensures jobs == ReapAll(old(jobs), cutoff)
    {
      var i := 0;
      while i < |jobs|
        invariant 0 <= i <= |jobs| == |old(jobs)|
        invariant forall k :: 0 <= k < i ==> jobs[k] == Reaped(old(jobs)[k], cutoff)
        invariant forall k :: i <= k < |jobs| ==> jobs[k] == old(jobs)[k]
      {
        var j := jobs[i];
        if j.status == Running && j.startedAt.Some? && j.startedAt.value < cutoff {
          jobs := jobs[i := j.(status := TimedOut)];
        }
        i := i + 1;
      }
    }
  }

  lemma {:induction false} ExistingPrefix(jobs: seq<Job>, k: nat, client: Option<int>, kind: string)
    requires k <= |jobs| && Existing(jobs[..k], client, kind).Some?
    ensures Existing(jobs, client, kind) == Existing(jobs[..k], client, kind)
    decreases |jobs|
  {
    if k < |jobs| {
      assert jobs[..|jobs| - 1][..k] == jobs[..k];
      ExistingPrefix(jobs[..|jobs| - 1], k, client, kind);
    } else {
      assert jobs[..k] == jobs;
    }
  }
}
