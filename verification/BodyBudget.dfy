/**
 The body budget of `worker/body-budget.ts`: one charge shared by every lease object, which leases raise, divide and
 give back.
 */
module BodyBudget {
  import opened Basics

  const LEASE_MINIMUM: int := 1024 * 1024
  const BUDGET: int := 96 * 1024 * 1024

  /** What a lease object holds. */
  datatype Holding = Holding(held: nat, transferred: bool)

  /** The charge, and the holdings of all leases. */
  datatype Pool<!L(==)> = Pool(charged: int, leases: map<L, Holding>)

  ghost function Sum<L>(leases: map<L, Holding>): nat
  {
    if leases == map[] then 0
    else
      var l :| l in leases;
      leases[l].held + Sum(leases - {l})
  }

  /** The sum can be taken apart at any lease. */
  lemma {:induction false} SumAt<L>(leases: map<L, Holding>, l: L)
    requires l in leases
    ensures Sum(leases) == leases[l].held + Sum(leases - {l})
    decreases |leases|
  {
    var first :| first in leases && Sum(leases) == leases[first].held + Sum(leases - {first});
    if first != l {
      SumAt(leases - {first}, l);
      SumAt(leases - {l}, first);
      assert leases - {first} - {l} == leases - {l} - {first};
    }
  }

  lemma SumSet<L>(leases: map<L, Holding>, l: L, h: Holding)
    ensures Sum(leases[l := h]) == Sum(leases) + h.held - if l in leases then leases[l].held else 0
  {
    SumAt(leases[l := h], l);
    if l in leases {
      SumAt(leases, l);
      assert leases[l := h] - {l} == leases - {l};
    } else {
      assert leases[l := h] - {l} == leases;
    }
  }

  // ----- Operations

  function Want(bytes: int): int {
    if bytes < LEASE_MINIMUM then 0 else 2 * bytes
  }

  predicate MayGrow<L>(p: Pool<L>, l: L, bytes: int)
    requires l in p.leases
  {
    !p.leases[l].transferred && (Want(bytes) <= p.leases[l].held || p.charged - p.leases[l].held + Want(bytes) <= BUDGET)
  }

  function Grow<L>(p: Pool<L>, l: L, bytes: int): Pool<L>
    requires l in p.leases
  {
    var h := p.leases[l];
    if !MayGrow(p, l, bytes) || Want(bytes) <= h.held then p
    else Pool(p.charged + Want(bytes) - h.held, p.leases[l := Holding(Want(bytes), false)])
  }

  predicate MaySplit<L>(p: Pool<L>, l: L, input: int, response: int)
    requires l in p.leases
  {
    var h := p.leases[l];
    var next := p.charged - h.held + input + response;
    && !h.transferred && 0 < h.held <= BUDGET && 0 < input <= BUDGET && 0 < response <= BUDGET
    && input + response <= BUDGET && -MAX_SAFE <= next <= MAX_SAFE && input + response <= next <= BUDGET
  }

  /** The charge of one lease passes to two new ones. */
  function Split<L>(p: Pool<L>, l: L, a: L, b: L, input: int, response: int): Pool<L>
    requires l in p.leases && a !in p.leases && b !in p.leases && a != b
  {
    if !MaySplit(p, l, input, response) then p
    else Pool(p.charged - p.leases[l].held + input + response,
              p.leases[l := Holding(0, true)][a := Holding(input, false)][b := Holding(response, false)])
  }

  function Release<L>(p: Pool<L>, l: L): Pool<L>
    requires l in p.leases
  {
    Pool(p.charged - p.leases[l].held, p.leases[l := p.leases[l].(held := 0)])
  }

  // ----- Conservation

  /** The charge is what the leases hold, within the budget, and a divided lease holds nothing. */
  ghost predicate Balanced<L>(p: Pool<L>) {
    && p.charged == Sum(p.leases) && p.charged <= BUDGET
    && forall l :: l in p.leases && p.leases[l].transferred ==> p.leases[l].held == 0
  }

  datatype Op<L> = Open(lease: L) | DoGrow(lease: L, bytes: int) | DoSplit(lease: L, a: L, b: L, input: int, response: int) | DoRelease(lease: L)

  predicate Possible<L>(p: Pool<L>, op: Op<L>) {
    if op.Open? then op.lease !in p.leases
    else op.lease in p.leases && (op.DoSplit? ==> op.a !in p.leases && op.b !in p.leases && op.a != op.b)
  }

  function After<L>(p: Pool<L>, op: Op<L>): Pool<L>
    requires Possible(p, op)
  {
    match op
    case Open(l) => p.(leases := p.leases[l := Holding(0, false)])
    case DoGrow(l, bytes) => Grow(p, l, bytes)
    case DoSplit(l, a, b, input, response) => Split(p, l, a, b, input, response)
    case DoRelease(l) => Release(p, l)
  }

  lemma HeldIsCharged<L>(p: Pool<L>, l: L)
    requires Balanced(p) && l in p.leases
    ensures p.leases[l].held <= p.charged
  {
    SumAt(p.leases, l);
  }

  /** Every operation keeps the balance. */
  lemma StepBalanced<L>(p: Pool<L>, op: Op<L>)
    requires Balanced(p) && Possible(p, op)
    ensures Balanced(After(p, op))
  {
    match op
    case Open(l) => SumSet(p.leases, l, Holding(0, false));
    case DoGrow(l, bytes) => if Want(bytes) >= 0 { SumSet(p.leases, l, Holding(Want(bytes), false)); }
    case DoSplit(l, a, b, input, response) =>
      if MaySplit(p, l, input, response) {
        SumSet(p.leases, l, Holding(0, true));
        SumSet(p.leases[l := Holding(0, true)], a, Holding(input, false));
        SumSet(p.leases[l := Holding(0, true)][a := Holding(input, false)], b, Holding(response, false));
      }
    case DoRelease(l) =>
      HeldIsCharged(p, l);
      SumSet(p.leases, l, p.leases[l].(held := 0));
  }

  /** Nothing a divided lease is asked to do changes anything. */
  lemma DividedIsInert<L>(p: Pool<L>, op: Op<L>)
    requires Balanced(p) && Possible(p, op) && !op.Open? && p.leases[op.lease].transferred
    ensures After(p, op) == p
  {
    if op.DoRelease? { assert p.leases[op.lease := p.leases[op.lease].(held := 0)] == p.leases; }
  }

  /** The state after a run; operations that are impossible do not happen. */
  ghost function Run<L>(p: Pool<L>, ops: seq<Op<L>>): Pool<L>
    decreases |ops|
  {
    if ops == [] then p
    else
      var before, op := Run(p, ops[..|ops| - 1]), ops[|ops| - 1];
      if Possible(before, op) then After(before, op) else before
  }

  /** Over any run, with any number of leases: the charge is conserved, and a divided lease stays divided. */
  lemma {:induction false} Conserved<L>(p: Pool<L>, ops: seq<Op<L>>)
    requires Balanced(p)
    ensures Balanced(Run(p, ops))
    ensures forall l :: l in p.leases ==> l in Run(p, ops).leases && (p.leases[l].transferred ==> Run(p, ops).leases[l] == Holding(0, true))
    decreases |ops|
  {
    hide Balanced, Possible, After;
    if ops == [] {
      DividedHoldsNothing(p);
    } else {
      var before, op := Run(p, ops[..|ops| - 1]), ops[|ops| - 1];
      Conserved(p, ops[..|ops| - 1]);
      if Possible(before, op) {
        StepBalanced(before, op);
        forall l | l in before.leases ensures l in After(before, op).leases && (before.leases[l] == Holding(0, true) ==> After(before, op).leases[l] == Holding(0, true)) {
          StaysDivided(before, op, l);
        }
      }
    }
  }

  lemma DividedHoldsNothing<L>(p: Pool<L>)
    requires Balanced(p)
    ensures forall l :: l in p.leases && p.leases[l].transferred ==> p.leases[l] == Holding(0, true)
  {}

  lemma StaysDivided<L>(p: Pool<L>, op: Op<L>, l: L)
    requires Possible(p, op) && l in p.leases
    ensures l in After(p, op).leases && (p.leases[l] == Holding(0, true) ==> After(p, op).leases[l] == Holding(0, true))
  {}

  // ----- The program

  /** The module's variable; `pool` is the balance of all leases opened so far. */
  class Account {
    var charged: int
    ghost var pool: Pool<BodyLease>

    ghost predicate Valid()
      reads this, pool.leases.Keys
    {
      && charged == pool.charged && Balanced(pool)
      && forall l :: l in pool.leases ==> Holding(l.held, l.transferred) == pool.leases[l]
    }

    constructor ()
      ensures Valid() && charged == 0 && pool.leases == map[]
    {
      charged := 0;
      pool := Pool(0, map[]);
    }
  }

  class BodyLease {
    var held: nat
    var transferred: bool

    constructor (account: Account)
      requires account.Valid()
      modifies account`pool
      ensures account.Valid() && fresh(this) && account.pool == After(old(account.pool), Open(this)) && held == 0 && !transferred
    {
      held, transferred := 0, false;
      new;
      StepBalanced(account.pool, Open(this));
      account.pool := account.pool.(leases := account.pool.leases[this := Holding(0, false)]);
    }

    /** A lease with a given charge, for `splitCharges` alone, which enters it in the account. */
    constructor With(charge: nat)
      ensures held == charge && !transferred
    {
      held, transferred := charge, false;
    }

    method Grow(account: Account, bytes: int) returns (ok: bool)
      requires account.Valid() && this in account.pool.leases
      modifies this, account
      ensures account.Valid() && account.pool == After(old(account.pool), DoGrow(this, bytes))
      ensures ok <==> MayGrow(old(account.pool), this, bytes)
      ensures !ok ==> account.pool == old(account.pool)
    {
      StepBalanced(account.pool, DoGrow(this, bytes));
      account.pool := After(account.pool, DoGrow(this, bytes));
      if transferred { return false; }
      var want := if bytes < LEASE_MINIMUM then 0 else 2 * bytes;
      if want <= held { return true; }
      if account.charged - held + want > BUDGET { return false; }
      account.charged := account.charged + want - held;
      held := want;
      ok := true;
    }

    method SplitCharges(account: Account, input: int, response: int) returns (r: (BodyLease?, BodyLease?))
      requires account.Valid() && this in account.pool.leases
      modifies this, account
      ensures account.Valid()
      ensures r.0 != null <==> MaySplit(old(account.pool), this, input, response)
      ensures r.0 != null ==> r.1 != null && fresh(r.0) && fresh(r.1) && r.0 != r.1 && r.0 !in old(account.pool.leases) && r.1 !in old(account.pool.leases)
                              && account.pool == After(old(account.pool), DoSplit(this, r.0, r.1, input, response))
      ensures r.0 == null ==> r.1 == null && account.pool == old(account.pool) && held == old(held) && transferred == old(transferred)
    {
      if transferred || held <= 0 || held > BUDGET || input <= 0 || input > BUDGET || response <= 0 || response > BUDGET { return (null, null); }
      var total := input + response;
      var next := account.charged - held + total;
      if total > BUDGET || next < -MAX_SAFE || next > MAX_SAFE || next < total || next > BUDGET { return (null, null); }
      var a := new BodyLease.With(input);
      var b := new BodyLease.With(response);
      StepBalanced(account.pool, DoSplit(this, a, b, input, response));
      account.pool := After(account.pool, DoSplit(this, a, b, input, response));
      account.charged := next;
      held, transferred := 0, true;
      r := (a, b);
    }

    method Release(account: Account)
      requires account.Valid() && this in account.pool.leases
      modifies this, account
      ensures account.Valid() && account.pool == After(old(account.pool), DoRelease(this))
    {
      StepBalanced(account.pool, DoRelease(this));
      account.pool := After(account.pool, DoRelease(this));
      account.charged := account.charged - held;
      held := 0;
    }
  }
}
