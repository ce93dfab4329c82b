/**
 The evaluation as the program runs it, and the first-in-first-out queue of reconciliations in `worker/authority.ts`:
 each request captures its rules on arrival and waits for the one before it, whatever becomes of that one.

 `arrivals` and `log` are history: the requests as they arrived, and the order in which users were written.
 */
module Reconcile {
  import opened Basics
  import opened AssignmentEvaluator
  import opened AssignmentLaws

  // ----- The evaluation

  function MatchedIds(rules: seq<Rule>, email: string, evidence: Option<Evidence>): seq<string> {
    if rules == [] then []
    else
      var n := |rules| - 1;
      MatchedIds(rules[..n], email, evidence) + if MatchOf(rules[n], email, evidence).Matches? then [rules[n].id] else []
  }

  /** Exactly the rules that apply are among the matched ones. */
  lemma {:induction false} MatchedMeans(rules: seq<Rule>, email: string, evidence: Option<Evidence>)
    ensures forall id :: id in MatchedIds(rules, email, evidence) <==> exists i :: 0 <= i < |rules| && rules[i].id == id && Applies(rules[i], email, evidence)
  {
    hide Applies, MatchOf;
    if rules != [] {
      var n := |rules| - 1;
      MatchedMeans(rules[..n], email, evidence);
      MatchMeans(rules[n], email, evidence);
      forall id ensures id in MatchedIds(rules, email, evidence) <==> exists i :: 0 <= i < |rules| && rules[i].id == id && Applies(rules[i], email, evidence) {
        if i :| 0 <= i < n && rules[i].id == id && Applies(rules[i], email, evidence) { assert rules[..n][i] == rules[i]; }
        if id in MatchedIds(rules[..n], email, evidence) {
          var i :| 0 <= i < n && rules[..n][i].id == id && Applies(rules[..n][i], email, evidence);
          assert rules[i].id == id;
        }
      }
    }
  }

  predicate AreThoseThatApply(ids: seq<string>, rules: seq<Rule>, email: string, evidence: Option<Evidence>) {
    forall i :: 0 <= i < |rules| ==> (rules[i].id in ids <==> Applies(rules[i], email, evidence))
  }

  lemma DistinctMatched(rules: seq<Rule>, email: string, evidence: Option<Evidence>)
    requires Distinct(rules)
    ensures AreThoseThatApply(MatchedIds(rules, email, evidence), rules, email, evidence)
  {
    hide Applies, MatchedIds;
    MatchedMeans(rules, email, evidence);
  }

  predicate Retains(rule: Rule, email: string, evidence: Option<Evidence>, previous: Assignments) {
    Retaining(rule, email, evidence) && LookUp(previous, rule.id).Some?
  }

  function RetainedIds(rules: seq<Rule>, email: string, evidence: Option<Evidence>, previous: Assignments): seq<string> {
    if rules == [] then []
    else
      var n := |rules| - 1;
      RetainedIds(rules[..n], email, evidence, previous) + if Retains(rules[n], email, evidence, previous) then [rules[n].id] else []
  }

  /** The identifiers of earlier assignments, in order. */
  method SortedIds(a: Assignments) returns (ids: seq<string>)
    ensures Sorted(ids) && forall id :: id in ids <==> exists i :: 0 <= i < |a| && a[i].id == id
  {
    ids := [];
    for k := 0 to |a|
      invariant Sorted(ids) && forall id :: id in ids <==> exists i :: 0 <= i < k && a[i].id == id
    {
      InsertKeeps(ids, a[k].id);
      ids := Insert(ids, a[k].id);
    }
  }

  /** Nothing is returned when the groups of something inherited are read. */
  method EvaluateAssignments(norm: Norm, user: User, rules: seq<Rule>, legacyRevision: string, revision: string, evidence: Option<Evidence>, force: bool, now: string)
      returns (r: Option<Evaluation>)
    ensures (if r.Some? then Some((r.value.changed, r.value.user)) else None) == EvaluatedUser(norm, user, rules, legacyRevision, revision, evidence, force, now)
    ensures r.Some? && (force || !SameRevision(user, legacyRevision, revision)) ==>
              r.value.matched == MatchedIds(rules, user.email, evidence) && r.value.retained == RetainedIds(rules, user.email, evidence, Before(user).assignments)
    ensures r.Some? && (force || !SameRevision(user, legacyRevision, revision)) && Distinct(rules) ==>
              AreThoseThatApply(r.value.matched, rules, user.email, evidence)
    ensures r.Some? && !force && SameRevision(user, legacyRevision, revision) ==>
              && r.value.retained == [] && Sorted(r.value.matched)
              && forall id :: id in r.value.matched <==> exists i :: 0 <= i < |Before(user).assignments| && Before(user).assignments[i].id == id
  {
    hide MatchOf, Inherited, EntryOf, Normalize, AreThoseThatApply, Distinct;
    var previous := if user.state.Some? then user.state.value else RuleState("", [], "");
    var same := previous.revision == legacyRevision || previous.revision == revision;
    if !force && same {
      var ids := SortedIds(previous.assignments);
      return Some(Evaluation(false, user, ids, []));
    }
    var built, matched, retained := Object([], None), [], [];
    for k := 0 to |rules|
      invariant built == Build(norm, rules[..k], user.email, evidence, previous.assignments)
      invariant matched == MatchedIds(rules[..k], user.email, evidence)
      invariant retained == RetainedIds(rules[..k], user.email, evidence, previous.assignments)
    {
      var rule := rules[k];
      assert rules[..k + 1][..k] == rules[..k];
      var outcome := MatchOf(rule, user.email, evidence);
      if outcome.Matches? {
        built := Put(built, rule.id, Own(EntryOf(norm, rule)));
        matched := matched + [rule.id];
      } else if outcome.Undecided? || (outcome.NoMatch? && rule.enabled && !rule.revokeOnLoss) {
        var found := LookUp(previous.assignments, rule.id);
        if found.Some? {
          built := Put(built, rule.id, found.value);
          retained := retained + [rule.id];
        }
      }
    }
    assert rules[..|rules|] == rules;
    if Distinct(rules) { DistinctMatched(rules, user.email, evidence); }
    if Broken(built.members) { return None; }
    var assignments := Entries(built.members);
    var groups := Normalize(norm, Manual(previous.assignments, user.groups) + GroupsOf(assignments));
    if same && previous.assignments == assignments && Normalize(norm, user.groups) == groups {
      return Some(Evaluation(false, user, matched, retained));
    }
    var role := if user.role.Some? then user.role.value else "user";
    r := Some(Evaluation(true, User(user.email, Some(role), groups, Some(RuleState(revision, assignments, now))), matched, retained));
  }

  // ----- The queue

  /** The parts of a request that are captured by reference: an older record of assignments, used when the user has none,
      and the evidence. */
  datatype Shared = Shared(legacy: Option<RuleState>, evidence: Option<Evidence>)

  /** A request; its rules are copied on arrival, and so are its address and its flag. */
  datatype Request = Request(email: string, rules: seq<Rule>, legacyRevision: string, revision: string, force: bool, shared: Shared)

  type Users = map<string, User>

  datatype Progress = Waiting | Hashing | Finished

  /** `captured` is absent when capturing failed; `predecessor` is the request this one waits for. */
  datatype Job = Job(captured: Option<Request>, predecessor: Option<nat>, progress: Progress)

  datatype Event = Turn(job: nat, ok: bool, now: string, shared: Shared) | Outside(email: string, user: Option<User>)

  /** `live` and `shared` are what the callers hold: their request objects, and the contents of the shared parts. */
  datatype Queue = Queue(jobs: seq<Job>, tail: Option<nat>, live: seq<Request>, shared: seq<Shared>, users: Users, arrivals: seq<Option<Request>>, log: seq<Event>)

  function WithLegacy(norm: Norm, user: User, legacy: Option<RuleState>): User {
    if user.state.Some? || legacy.None? then user
    else
      var a := legacy.value.assignments;
      user.(state := Some(RuleState("", seq(|a|, i requires 0 <= i < |a| => Assignment(a[i].id, Entry(Normalize(norm, a[i].entry.groups), a[i].entry.revokeOnLoss))),
                                    legacy.value.updatedAt)))
  }

  /** An older record is used only for a user without one; it keeps rules, flags and normal forms of groups, and counts as
      evaluated under no revision. */
  lemma LegacyMeans(norm: Norm, user: User, legacy: Option<RuleState>)
    ensures var after := WithLegacy(norm, user, legacy);
            && after.groups == user.groups && after.email == user.email && after.role == user.role
            && (user.state.Some? || legacy.None? ==> after == user)
            && (user.state.None? && legacy.Some? ==>
                  && after.state.Some? && after.state.value.revision == "" && |after.state.value.assignments| == |legacy.value.assignments|
                  && forall i :: 0 <= i < |legacy.value.assignments| ==>
                       var old', new' := legacy.value.assignments[i], after.state.value.assignments[i];
                       && new'.id == old'.id && new'.entry.revokeOnLoss == old'.entry.revokeOnLoss
                       && forall g :: g in new'.entry.groups <==> Covers(norm, old'.entry.groups, g))
  {
    hide Covers, Normalize;
    if user.state.None? && legacy.Some? {
      forall i | 0 <= i < |legacy.value.assignments|
        ensures forall g :: g in Normalize(norm, legacy.value.assignments[i].entry.groups) <==> Covers(norm, legacy.value.assignments[i].entry.groups, g)
      {
        NormalizeMeans(norm, legacy.value.assignments[i].entry.groups);
      }
    }
  }

  /** One whole turn: read, evaluate and write, or nothing; the shared parts as they stand when it runs. */
  function TurnOf(norm: Norm, users: Users, request: Option<Request>, shared: Shared, ok: bool, now: string): Users {
    if request.None? || !ok || request.value.email !in users then users
    else
      var r := request.value;
      var result := EvaluatedUser(norm, WithLegacy(norm, users[r.email], shared.legacy), r.rules, r.legacyRevision, r.revision, shared.evidence, r.force, now);
      if result.Some? && result.value.0 then users[r.email := Tidied(norm, result.value.1)] else users
  }

  function OutsideWrite(users: Users, email: string, user: Option<User>): Users {
    if user.Some? then users[email := user.value] else users - {email}
  }

  datatype Move =
    | Arrive(request: Request, captures: bool)
    | Mutate(caller: nat, request': Request)
    | Alter(caller: nat, shared': Shared)
    | Enter(job: nat)
    | Finish(job: nat, ok: bool, now: string)
    | Change(email: string, user: Option<User>)

  /** A job's predecessor has settled, one way or the other. */
  predicate Released(q: Queue, i: nat)
    requires i < |q.jobs|
  {
    q.jobs[i].predecessor.None? || (q.jobs[i].predecessor.value < |q.jobs| && q.jobs[q.jobs[i].predecessor.value].progress.Finished?)
  }

  predicate Enabled(q: Queue, m: Move) {
    match m
    case Enter(i) => i < |q.jobs| && q.jobs[i].progress.Waiting? && Released(q, i)
    case Finish(i, _, _) => i < |q.jobs| && q.jobs[i].progress.Hashing?
    case _ => true
  }

  function SharedOf(q: Queue, i: nat): Shared {
    if i < |q.shared| then q.shared[i] else Shared(None, None)
  }

  function Next(norm: Norm, q: Queue, m: Move): Queue
    requires Enabled(q, m)
  {
    match m
    case Arrive(request, captures) =>
      var captured := if captures then Some(request) else None;
      q.(jobs := q.jobs + [Job(captured, q.tail, Waiting)], tail := Some(|q.jobs|), live := q.live + [request], shared := q.shared + [request.shared], arrivals := q.arrivals + [captured])
    case Mutate(caller, request') => if caller < |q.live| then q.(live := q.live[caller := request']) else q
    case Alter(caller, shared') => if caller < |q.shared| then q.(shared := q.shared[caller := shared']) else q
    case Enter(i) =>
      if q.jobs[i].captured.None? then q.(jobs := q.jobs[i := q.jobs[i].(progress := Finished)], log := q.log + [Turn(i, false, "", SharedOf(q, i))])
      else q.(jobs := q.jobs[i := q.jobs[i].(progress := Hashing)])
    case Finish(i, ok, now) =>
      q.(jobs := q.jobs[i := q.jobs[i].(progress := Finished)], users := TurnOf(norm, q.users, q.jobs[i].captured, SharedOf(q, i), ok, now),
         log := q.log + [Turn(i, ok, now, SharedOf(q, i))])
    case Change(email, user) => q.(users := OutsideWrite(q.users, email, user), log := q.log + [Outside(email, user)])
  }

  // ----- Linearization

  /** The users after the logged events, each turn run alone with its rules as they arrived and the shared parts as it found them. */
  function Replay(norm: Norm, users: Users, arrivals: seq<Option<Request>>, log: seq<Event>): Users
    decreases |log|
  {
    if log == [] then users
    else
      Effect(norm, Replay(norm, users, arrivals, log[..|log| - 1]), arrivals, log[|log| - 1])
  }

  function Effect(norm: Norm, users: Users, arrivals: seq<Option<Request>>, e: Event): Users {
    match e
    case Turn(i, ok, now, shared) => if i < |arrivals| then TurnOf(norm, users, arrivals[i], shared, ok, now) else users
    case Outside(email, user) => OutsideWrite(users, email, user)
  }

  /** The jobs whose turns are in the log, in its order. */
  function Turns(log: seq<Event>): seq<nat> {
    if log == [] then []
    else
      var n := |log| - 1;
      Turns(log[..n]) + if log[n].Turn? then [log[n].job] else []
  }

  /** How many jobs have finished, when they finish in order. */
  ghost predicate Ordered(q: Queue, done: nat) {
    && done <= |q.jobs|
    && (forall i :: 0 <= i < done ==> q.jobs[i].progress.Finished?)
    && (forall i :: done <= i < |q.jobs| ==> !q.jobs[i].progress.Finished?)
    && (forall i :: done < i < |q.jobs| ==> q.jobs[i].progress.Waiting?)
    && Turns(q.log) == seq(done, i => i)
  }

  ghost predicate Inv(norm: Norm, users: Users, q: Queue, done: nat) {
    && |q.jobs| == |q.live| == |q.shared| == |q.arrivals|
    && (forall i :: 0 <= i < |q.jobs| ==> q.jobs[i].captured == q.arrivals[i] && q.jobs[i].predecessor == if i == 0 then None else Some(i - 1))
    && q.tail == (if |q.jobs| == 0 then None else Some(|q.jobs| - 1))
    && (forall i :: 0 <= i < |q.jobs| && q.jobs[i].progress.Hashing? ==> q.jobs[i].captured.Some?)
    && Ordered(q, done)
    && q.users == Replay(norm, users, q.arrivals, q.log)
  }

  lemma {:induction false} ReplayMore(norm: Norm, users: Users, a: seq<Option<Request>>, more: Option<Request>, log: seq<Event>)
    requires forall i :: 0 <= i < |Turns(log)| ==> Turns(log)[i] < |a|
    ensures Replay(norm, users, a + [more], log) == Replay(norm, users, a, log)
    decreases |log|
  {
    hide TurnOf;
    if log != [] {
      var n := |log| - 1;
      forall i | 0 <= i < |Turns(log[..n])| ensures Turns(log[..n])[i] < |a| { assert Turns(log)[i] == Turns(log[..n])[i]; }
      ReplayMore(norm, users, a, more, log[..n]);
      if log[n].Turn? {
        assert Turns(log)[|Turns(log)| - 1] == log[n].job;
      }
    }
  }

  lemma LogMore(norm: Norm, users: Users, a: seq<Option<Request>>, log: seq<Event>, e: Event)
    ensures Replay(norm, users, a, log + [e]) == Effect(norm, Replay(norm, users, a, log), a, e)
    ensures Turns(log + [e]) == Turns(log) + if e.Turn? then [e.job] else []
  {
    hide TurnOf;
    assert (log + [e])[..|log|] == log;
  }

  lemma ArriveKeeps(norm: Norm, users: Users, q: Queue, done: nat, m: Move)
    requires Inv(norm, users, q, done) && m.Arrive?
    ensures Inv(norm, users, Next(norm, q, m), done)
  {
    hide TurnOf, Replay, Turns;
    ReplayMore(norm, users, q.arrivals, if m.captures then Some(m.request) else None, q.log);
  }

  /** Only the first unfinished job can enter, and only it can be hashing. */
  lemma FirstUnfinished(norm: Norm, users: Users, q: Queue, done: nat, i: nat)
    requires Inv(norm, users, q, done) && i < |q.jobs|
    requires q.jobs[i].progress.Hashing? || (q.jobs[i].progress.Waiting? && Released(q, i))
    ensures i == done
  {
    hide TurnOf, Replay, Turns;
    assert i > 0 ==> q.jobs[i].predecessor == Some(i - 1);
  }

  lemma EnterKeeps(norm: Norm, users: Users, q: Queue, done: nat, i: nat)
    requires Inv(norm, users, q, done) && i == done < |q.jobs| && q.jobs[i].progress.Waiting? && q.jobs[i].captured.Some? && Released(q, i)
    ensures Inv(norm, users, Next(norm, q, Enter(i)), done)
  {
    hide TurnOf, Replay, Turns;
  }

  lemma FinishKeeps(norm: Norm, users: Users, q: Queue, done: nat, ok: bool, now: string)
    requires Inv(norm, users, q, done) && done < |q.jobs|
    ensures var q' := q.(jobs := q.jobs[done := q.jobs[done].(progress := Finished)], users := TurnOf(norm, q.users, q.jobs[done].captured, SharedOf(q, done), ok, now),
                         log := q.log + [Turn(done, ok, now, SharedOf(q, done))]);
            Inv(norm, users, q', done + 1)
  {
    hide TurnOf, Replay, Turns;
    LogMore(norm, users, q.arrivals, q.log, Turn(done, ok, now, SharedOf(q, done)));
    assert seq(done, j => j) + [done] == seq(done + 1, j => j);
  }

  lemma ChangeKeeps(norm: Norm, users: Users, q: Queue, done: nat, m: Move)
    requires Inv(norm, users, q, done) && m.Change?
    ensures Inv(norm, users, Next(norm, q, m), done)
  {
    hide TurnOf, Replay, Turns;
    LogMore(norm, users, q.arrivals, q.log, Outside(m.email, m.user));
  }

  lemma MutateKeeps(norm: Norm, users: Users, q: Queue, done: nat, m: Move)
    requires Inv(norm, users, q, done) && (m.Mutate? || m.Alter?)
    ensures Inv(norm, users, Next(norm, q, m), done)
  {
    hide TurnOf, Replay, Turns;
  }

  /** Every move keeps the order and the linearization; a turn is always that of the first unfinished job. */
  lemma MoveKeeps(norm: Norm, users: Users, q: Queue, done: nat, m: Move)
    requires Inv(norm, users, q, done) && Enabled(q, m)
    ensures var finishes := m.Finish? || (m.Enter? && q.jobs[m.job].captured.None?);
            (finishes ==> m.job == done) && Inv(norm, users, Next(norm, q, m), if finishes then done + 1 else done)
  {
    hide TurnOf, Inv;
    match m
    case Arrive(_, _) => ArriveKeeps(norm, users, q, done, m);
    case Mutate(_, _) => MutateKeeps(norm, users, q, done, m);
    case Alter(_, _) => MutateKeeps(norm, users, q, done, m);
    case Enter(i) =>
      FirstUnfinished(norm, users, q, done, i);
      if q.jobs[i].captured.None? {
        FinishKeeps(norm, users, q, done, false, "");
        NoTurn(norm, q.users, SharedOf(q, i));
      } else {
        EnterKeeps(norm, users, q, done, i);
      }
    case Finish(i, ok, now) =>
      FirstUnfinished(norm, users, q, done, i);
      FinishKeeps(norm, users, q, done, ok, now);
    case Change(_, _) => ChangeKeeps(norm, users, q, done, m);
  }

  lemma NoTurn(norm: Norm, users: Users, shared: Shared)
    ensures TurnOf(norm, users, None, shared, false, "") == users
  {}

  // ----- Runs

  /** The state after a run; moves that are not enabled do not happen. */
  ghost function Run(norm: Norm, q: Queue, moves: seq<Move>): Queue
    decreases |moves|
  {
    if moves == [] then q
    else
      var before, m := Run(norm, q, moves[..|moves| - 1]), moves[|moves| - 1];
      if Enabled(before, m) then Next(norm, before, m) else before
  }

  function Fresh(users: Users): Queue {
    Queue([], None, [], [], users, [], [])
  }

  /** Every interleaving is the turns run one after the other in arrival order, each with its rules, address and flag as they
      arrived, whatever the callers do to their requests meanwhile. */
  lemma {:induction false} Linearizes(norm: Norm, users: Users, moves: seq<Move>) returns (done: nat)
    ensures var q := Run(norm, Fresh(users), moves);
            && Inv(norm, users, q, done)
            && q.users == Replay(norm, users, q.arrivals, q.log) && Turns(q.log) == seq(done, i => i)
    decreases |moves|
  {
    if moves == [] {
      done := 0;
      assert Turns([]) == seq(0, i => i);
    } else {
      hide Inv, Next, Enabled;
      var before, m := Run(norm, Fresh(users), moves[..|moves| - 1]), moves[|moves| - 1];
      done := Linearizes(norm, users, moves[..|moves| - 1]);
      if Enabled(before, m) {
        MoveKeeps(norm, users, before, done, m);
        if m.Finish? || (m.Enter? && EntersFailed(before, m)) { done := done + 1; }
      }
      InvMeans(norm, users, Run(norm, Fresh(users), moves), done);
    }
  }

  predicate EntersFailed(q: Queue, m: Move)
    requires m.Enter?
  {
    m.job < |q.jobs| && q.jobs[m.job].captured.None?
  }

  lemma InvMeans(norm: Norm, users: Users, q: Queue, done: nat)
    requires Inv(norm, users, q, done)
    ensures q.users == Replay(norm, users, q.arrivals, q.log) && Turns(q.log) == seq(done, i => i)
  {}

  /** The shared parts are as they arrived, in the queue and in every turn so far. */
  ghost predicate Untouched(q: Queue) {
    && |q.shared| == |q.arrivals| == |q.jobs|
    && (forall i :: 0 <= i < |q.arrivals| && q.arrivals[i].Some? ==> q.shared[i] == q.arrivals[i].value.shared)
    && (forall k :: 0 <= k < |q.log| && q.log[k].Turn? ==>
          q.log[k].job < |q.arrivals| && (q.arrivals[q.log[k].job].Some? ==> q.log[k].shared == q.arrivals[q.log[k].job].value.shared))
  }

  lemma MoveUntouched(norm: Norm, q: Queue, m: Move)
    requires Untouched(q) && Enabled(q, m) && !m.Alter?
    ensures Untouched(Next(norm, q, m))
  {
    hide TurnOf, Released;
  }

  /** If no caller alters what it shared, every turn runs with the whole request as it arrived. */
  lemma {:induction false} WholeRequests(norm: Norm, users: Users, moves: seq<Move>)
    requires forall i :: 0 <= i < |moves| ==> !moves[i].Alter?
    ensures Untouched(Run(norm, Fresh(users), moves))
    decreases |moves|
  {
    hide Next, Enabled;
    if moves != [] {
      hide Untouched;
      var before, m := Run(norm, Fresh(users), moves[..|moves| - 1]), moves[|moves| - 1];
      WholeRequests(norm, users, moves[..|moves| - 1]);
      if Enabled(before, m) { MoveUntouched(norm, before, m); }
    }
  }

  /** A failed request neither blocks its successor nor lets it overtake: the first unfinished job, and only it, can go on. */
  lemma NoBlockingNoOvertaking(norm: Norm, users: Users, q: Queue, done: nat, i: nat)
    requires Inv(norm, users, q, done) && i < |q.jobs| && !q.jobs[i].progress.Finished?
    ensures (Enabled(q, Enter(i)) || Enabled(q, Finish(i, true, ""))) <==> i == done
  {}
}
