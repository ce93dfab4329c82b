/**
 `reconcileUserAssignments` of `worker/authority.ts`: the tail a request swaps on arrival, the wait for its predecessor, and
 the turn that reads, evaluates and writes without a pause.
 */
module ReconcileQueue {
  import opened Basics
  import opened AssignmentEvaluator
  import opened Reconcile

  class Reconciler {
    const norm: Norm
    var jobs: seq<Job>
    var tail: Option<nat>
    var users: Users
    ghost var live: seq<Request>
    var shared: seq<Shared>
    ghost var arrivals: seq<Option<Request>>
    ghost var log: seq<Event>

    ghost function State(): Queue
      reads this
    {
      Queue(jobs, tail, live, shared, users, arrivals, log)
    }

    constructor (norm: Norm, users: Users)
      ensures State() == Fresh(users) && this.norm == norm
    {
      this.norm, this.users := norm, users;
      jobs, tail, live, shared, arrivals, log := [], None, [], [], [], [];
    }

    /** Up to the first wait: the request takes the tail, becomes the tail, copies its rules and keeps the shared parts. */
    method Arrive(request: Request, captures: bool) returns (job: nat)
      modifies this
      ensures State() == Next(norm, old(State()), Move.Arrive(request, captures)) && job == |old(jobs)|
    {
      var predecessor := tail;
      job := |jobs|;
      tail := Some(job);
      var captured := if captures then Some(request) else None;
      jobs := jobs + [Job(captured, predecessor, Waiting)];
      shared := shared + [request.shared];
      live, arrivals := live + [request], arrivals + [captured];
    }

    /** After the predecessor has settled: a failed capture is thrown now, otherwise the rules are hashed. */
    method Enter(job: nat)
      requires Enabled(State(), Move.Enter(job))
      modifies this
      ensures State() == Next(norm, old(State()), Move.Enter(job))
    {
      if jobs[job].captured.None? {
        jobs := jobs[job := jobs[job].(progress := Finished)];
        log := log + [Turn(job, false, "", SharedOf(State(), job))];
      } else {
        jobs := jobs[job := jobs[job].(progress := Hashing)];
      }
    }

    /** After the hash: the turn itself, and the release of the successor whatever the outcome. */
    method Finish(job: nat, ok: bool, now: string)
      requires Enabled(State(), Move.Finish(job, ok, now))
      modifies this
      ensures State() == Next(norm, old(State()), Move.Finish(job, ok, now))
    {
      hide EvaluatedUser, WithLegacy, SameRevision, Tidied;
      var captured := jobs[job].captured;
      if captured.Some? && ok && captured.value.email in users {
        var r := captured.value;
        var parts := if job < |shared| then shared[job] else Shared(None, None);
        var candidate := WithLegacy(norm, users[r.email], parts.legacy);
        var result := EvaluateAssignments(norm, candidate, r.rules, r.legacyRevision, r.revision, parts.evidence, r.force, now);
        if result.Some? && result.value.changed { users := users[r.email := Tidied(norm, result.value.user)]; }
      }
      jobs := jobs[job := jobs[job].(progress := Finished)];
      log := log + [Turn(job, ok, now, SharedOf(State(), job))];
    }
  }
}
