/** Exactly how a swap can fail once its checks have passed. */
module Failures {
  import opened Machine
  import opened Sums
  import opened Tokens
  import opened Interfaces
  import opened Routing
  import opened RouterSteps
  import opened Custody

  // ---- How the hop loop ends --------------------------------------------------------

  ghost predicate Reached(job: Job, start: Ledger, k: nat) {
    k < |job.p.path| && FlowAt(job, start, k).Ok?
  }

  /** Hop k is reached and its output token is not deployed. */
  ghost predicate UndeployedAt(job: Job, start: Ledger, k: nat) {
    && Reached(job, start, k)
    && job.p.path[k].tokenOut !in FlowAt(job, start, k).value.ledger
  }

  /** Hop k is reached, and its adapter fails or its report is not covered. */
  ghost predicate UndeliveredAt(job: Job, start: Ledger, k: nat) {
    && Reached(job, start, k)
    && var f := FlowAt(job, start, k).value;
       && job.p.path[k].tokenOut in f.ledger
       && Forwards(job, k, f) && !DeliversAt(job, k, f)
  }

  /** Hop k is reached and delivers less than its minimum. */
  ghost predicate ShortAt(job: Job, start: Ledger, k: nat) {
    && Reached(job, start, k)
    && var f := FlowAt(job, start, k).value;
       && job.p.path[k].tokenOut in f.ledger
       && Forwards(job, k, f) && DeliversAt(job, k, f)
       && GainAt(job, k, f) < job.p.path[k].amountOutMin
  }

  /** A reached hop ends in one of four ways, and the swap ends with it unless it succeeds. */
  lemma ReachedDecides(job: Job, l: Ledger, start: Ledger, k: nat)
    requires Underway(job, l, start, false, false) && Reached(job, start, k)
    ensures var r, n := FlowAt(job, start, k + 1), |job.p.path|;
            && (UndeployedAt(job, start, k) <==> r == Trap(NoSuchToken))
            && (UndeliveredAt(job, start, k) <==> r == Err(SwapFailed))
            && (ShortAt(job, start, k) <==> r == Err(InsufficientOutput))
            && (r.Ok? || r == Trap(NoSuchToken) || r == Err(SwapFailed) || r == Err(InsufficientOutput))
            && (!r.Ok? ==> FlowAt(job, start, n) == r)
  {
    LoopInvariant(job, l, start, k, false, false);
    HopSolvent(job, l, start, k, FlowAt(job, start, k).value);
    FailureSticks(job, start, k + 1, |job.p.path|);
    hide Hop, Underway, Sturdy, DeliversAt, ReplyAt, GainAt, ForwardAt;
  }

  /** A loop that failed did so at some reached hop. */
  lemma {:induction false} FailedHop(job: Job, start: Ledger, k: nat) returns (j: nat)
    requires k <= |job.p.path| && !FlowAt(job, start, k).Ok?
    ensures j < k && Reached(job, start, j) && FlowAt(job, start, j + 1) == FlowAt(job, start, k)
  {
    hide Hop;
    if FlowAt(job, start, k - 1).Ok? {
      j := k - 1;
    } else {
      j := FailedHop(job, start, k - 1);
    }
  }

  lemma LoopEnds(job: Job, l: Ledger, start: Ledger)
    requires Underway(job, l, start, false, false)
    ensures var r := FlowAt(job, start, |job.p.path|);
            && (r.Trap? <==> exists k :: UndeployedAt(job, start, k))
            && (r == Err(SwapFailed) <==> exists k :: UndeliveredAt(job, start, k))
            && (r == Err(InsufficientOutput) <==> exists k :: ShortAt(job, start, k))
            && (r.Ok? || r == Trap(NoSuchToken) || r == Err(SwapFailed) || r == Err(InsufficientOutput))
  {
    var r := FlowAt(job, start, |job.p.path|);
    if !r.Ok? {
      var j := FailedHop(job, start, |job.p.path|);
      ReachedDecides(job, l, start, j);
    }
    forall k | Reached(job, start, k)
      ensures UndeployedAt(job, start, k) ==> r == Trap(NoSuchToken)
      ensures UndeliveredAt(job, start, k) ==> r == Err(SwapFailed)
      ensures ShortAt(job, start, k) ==> r == Err(InsufficientOutput)
    {
      ReachedDecides(job, l, start, k);
    }
    assert forall k :: UndeployedAt(job, start, k) || UndeliveredAt(job, start, k) || ShortAt(job, start, k) ==>
      Reached(job, start, k);
    hide Reached, UndeployedAt, UndeliveredAt, ShortAt, FlowAt, Underway;
  }

  // ---- How a swap ends ----------------------------------------------------------------

  /** The last verified amount is below the swap's minimum. */
  ghost predicate ShortOverall(job: Job, start: Ledger) {
    var r := FlowAt(job, start, |job.p.path|);
    r.Ok? && r.value.amounts[|job.p.path|] < job.p.amountOutMin
  }

  /** Once the checks pass, the pull and every forward succeed, and the swap ends in `Overflow` when no execution id
      is left; otherwise in a trap exactly when it reaches a hop whose output token is not deployed, in `SwapFailed`
      exactly when it reaches one whose adapter fails or whose report is not covered, in `InsufficientOutput` exactly
      when a reached hop or the last amount is short, and in success exactly when none of these happens. */
  lemma Solvency(self: Address, s: RouterState, l: Ledger, env: Env, p: SwapParams, venue: Venue, start: Ledger)
    requires Assumed(self, l, p, venue) && Preflight(s, l, env, p).Ok?
    requires Moved(l, p.tokenIn, p.trader, self, p.amountIn) == Some(start)
    ensures var r, job := Execute(self, s, l, env, p, venue), JobOf(self, s, p, venue);
            && (r == Err(Overflow) <==> s.nonce == U64_MAX)
            && (s.nonce < U64_MAX ==>
                  && (r.Trap? <==> exists k :: UndeployedAt(job, start, k))
                  && (r == Err(SwapFailed) <==> exists k :: UndeliveredAt(job, start, k))
                  && (r == Err(InsufficientOutput) <==>
                        (exists k :: ShortAt(job, start, k)) || ShortOverall(job, start))
                  && (r.Ok? || r == Trap(NoSuchToken) || r == Err(SwapFailed) || r == Err(InsufficientOutput)))
  {
    SetUp(self, s, l, env, p, venue, false, false);
    hide Preflight, Moved, Assumed, UndeployedAt, UndeliveredAt, ShortAt, Underway;
    LoopEnds(JobOf(self, s, p, venue), l, start);
    hide FlowAt;
  }

  /** The pull of a swap that passed its checks succeeds. */
  lemma PullSucceeds(self: Address, s: RouterState, l: Ledger, env: Env, p: SwapParams)
    requires Sound(l) && Preflight(s, l, env, p).Ok?
    ensures Moved(l, p.tokenIn, p.trader, self, p.amountIn).Some?
  {
    MovedEffect(l, p.tokenIn, p.trader, self, p.amountIn);
  }

  /** At every reached hop the subtraction of the balances around the adapter's call stays within an i128. */
  lemma SubtractionNeverFails(job: Job, l: Ledger, start: Ledger, k: nat)
    requires Underway(job, l, start, false, false) && Reached(job, start, k)
    ensures var f := FlowAt(job, start, k).value;
            Forwards(job, k, f) && (ReplyAt(job, k, f).Accepted? ==> 0 <= GainAt(job, k, f) <= I128_MAX)
  {
    LoopInvariant(job, l, start, k, false, false);
    HopSolvent(job, l, start, k, FlowAt(job, start, k).value);
  }

  /** A failing adapter, or a report that is not positive or exceeds the delivery, at whatever hop the swap reaches it,
      fails the swap and restores the world. */
  lemma UncoveredReportUndone(self: Address, before: World, env: Env, p: SwapParams, venue: Venue,
        start: Ledger, k: nat)
    requires Assumed(self, before.ledger, p, venue) && Preflight(before.router, before.ledger, env, p).Ok?
    requires Moved(before.ledger, p.tokenIn, p.trader, self, p.amountIn) == Some(start) && before.router.nonce < U64_MAX
    requires UndeliveredAt(JobOf(self, before.router, p, venue), start, k)
    ensures Perform(self, before, env, Swap(p, venue)) == Err(SwapFailed)
    ensures Transact(self, before, env, Swap(p, venue)) == before
  {
    Solvency(self, before.router, before.ledger, env, p, venue, start);
    hide Execute, UndeliveredAt, Assumed, Preflight, Moved;
  }

  // ---- Seeing a trap coming -----------------------------------------------------------

  /** A route whose output tokens are all deployed never traps, whatever the adapters do. */
  lemma DeployedNeverTraps(self: Address, s: RouterState, l: Ledger, env: Env, p: SwapParams, venue: Venue)
    requires Assumed(self, l, p, venue) && Preflight(s, l, env, p).Ok?
    requires forall k :: 0 <= k < |p.path| ==> p.path[k].tokenOut in l
    ensures !Execute(self, s, l, env, p, venue).Trap?
  {
    PullSucceeds(self, s, l, env, p);
    var start, job := Moved(l, p.tokenIn, p.trader, self, p.amountIn).value, JobOf(self, s, p, venue);
    Solvency(self, s, l, env, p, venue, start);
    SetUp(self, s, l, env, p, venue, false, false);
    hide Execute, Preflight, Moved, Assumed, Underway;
    forall k | Reached(job, start, k)
      ensures !UndeployedAt(job, start, k)
    {
      LoopInvariant(job, l, start, k, false, false);
    }
  }

  /** A route whose first output token is not deployed always traps, whatever the adapters do. */
  lemma FirstUndeployedTraps(self: Address, s: RouterState, l: Ledger, env: Env, p: SwapParams, venue: Venue)
    requires Assumed(self, l, p, venue) && Preflight(s, l, env, p).Ok? && s.nonce < U64_MAX
    requires p.path != [] && p.path[0].tokenOut !in l
    ensures Execute(self, s, l, env, p, venue) == Trap(NoSuchToken)
  {
    PullSucceeds(self, s, l, env, p);
    MovedEffect(l, p.tokenIn, p.trader, self, p.amountIn);
    var start := Moved(l, p.tokenIn, p.trader, self, p.amountIn).value;
    Solvency(self, s, l, env, p, venue, start);
    assert UndeployedAt(JobOf(self, s, p, venue), start, 0);
    hide Execute, UndeployedAt;
  }

  function AtLeastOne(x: i128): i128 {
    if x < 1 then 1 else x
  }

  /** The supply cap leaves room for hop j to deliver its minimum to the router. */
  ghost predicate Room(self: Address, l: Ledger, p: SwapParams, j: nat)
    requires j < |p.path|
  {
    var t := p.path[j].tokenOut;
    Balance(l, t, self) + Balance(l, t, p.trader) - (if t == p.tokenIn then p.amountIn else 0)
      + AtLeastOne(p.path[j].amountOutMin) <= I128_MAX
  }

  /** Hop k's output token is not deployed, and every earlier hop has room to deliver. */
  ghost predicate TrapPossible(self: Address, l: Ledger, p: SwapParams, k: nat) {
    k < |p.path| && p.path[k].tokenOut !in l && forall j :: 0 <= j < k ==> Room(self, l, p, j)
  }

  /** The two parties together never hold more than the supply cap. */
  lemma PairRange(l: Ledger, t: Address, a: Address, b: Address)
    requires Sound(l) && a != b
    ensures Balance(l, t, a) + Balance(l, t, b) <= I128_MAX
  {
    if t in l {
      if a in l[t] {
        SumCovers(l[t], a, b);
      }
      if b in l[t] {
        SumCovers(l[t], b, a);
      }
      SumNonNegative(l[t]);
    }
  }

  lemma ReachedHasRoom(job: Job, l: Ledger, start: Ledger, k: nat, j: nat)
    requires Underway(job, l, start, false, false) && Reached(job, start, k) && j < k
    ensures Room(job.self, l, job.p, j)
  {
    FailureSticks(job, start, j + 1, k);
    LoopInvariant(job, l, start, j + 1, false, false);
    var f, t := FlowAt(job, start, j + 1).value, job.p.path[j].tokenOut;
    hide FlowAt, Underway;
    assert Keeps(false, Balance(l, t, job.self) + Due(job, j + 1, f.amounts, job.self, t),
                 Balance(f.ledger, t, job.self));
    assert Keeps(false, Balance(l, t, job.p.trader) + Due(job, j + 1, f.amounts, job.p.trader, t),
                 Balance(f.ledger, t, job.p.trader));
    assert job.p.path[j].amountOutMin <= f.amounts[j + 1] && 0 < f.amounts[j + 1];
    PairRange(f.ledger, t, job.self, job.p.trader);
  }

  // An adapter behaviour that always delivers as little as it may, taking it from everyone but the two parties.

  /** What the two parties hold is all that is left of the book, plus `m` for one of them. */
  function Squeezed(b: Book, self: Address, trader: Address, recipient: Address, m: int): Book {
    map[self := Entry(b, self) + (if recipient == self then m else 0),
        trader := Entry(b, trader) + (if recipient == trader then m else 0)]
  }

  function Squeezer(self: Address, trader: Address): Venue {
    (k: nat, call: AdapterCall, l: Ledger) =>
      var t, m := call.tokenOut, AtLeastOne(call.amountOutMin);
      if t in l && (call.recipient == self || call.recipient == trader)
         && Balance(l, t, self) + Balance(l, t, trader) + m <= I128_MAX
      then Accepted(m, l[t := Squeezed(l[t], self, trader, call.recipient, m)])
      else Refused
  }

  lemma SqueezedSum(b: Book, self: Address, trader: Address, recipient: Address, m: int)
    requires self != trader && (recipient == self || recipient == trader)
    ensures Sum(Squeezed(b, self, trader, recipient, m)) == Entry(b, self) + Entry(b, trader) + m
  {
    var x := Entry(b, self) + (if recipient == self then m else 0);
    var y := Entry(b, trader) + (if recipient == trader then m else 0);
    SumPut(map[], self, x);
    SumPut(map[self := x], trader, y);
    assert Squeezed(b, self, trader, recipient, m) == map[self := x][trader := y];
  }

  lemma SqueezerAssumed(self: Address, l: Ledger, p: SwapParams)
    requires Sound(l) && p.trader != self
    ensures Assumed(self, l, p, Squeezer(self, p.trader))
    ensures Scoped(Squeezer(self, p.trader), self) && Scoped(Squeezer(self, p.trader), p.trader)
  {
    var venue := Squeezer(self, p.trader);
    forall k, call, g | Sound(g) && venue(k, call, g).Accepted?
      ensures Sound(venue(k, call, g).after) && g.Keys <= venue(k, call, g).after.Keys
    {
      var t := call.tokenOut;
      SqueezedSum(g[t], self, p.trader, call.recipient, AtLeastOne(call.amountOutMin));
      BalanceRange(g, t, self);
      BalanceRange(g, t, p.trader);
    }
    hide Sound, Sum;
  }

  /** The squeezer fills every hop that has room and whose output token is deployed, and deploys nothing. */
  lemma SqueezerFills(job: Job, l: Ledger, start: Ledger, k: nat, f: Flow)
    requires Underway(job, l, start, true, true) && job.venue == Squeezer(job.self, job.p.trader)
    requires k + 1 < |job.p.path| && |f.amounts| == k + 1 && Sturdy(job, l, k, f, true, true)
    requires f.ledger.Keys == l.Keys && job.p.path[k].tokenOut in l && Room(job.self, l, job.p, k)
    ensures Hop(job, k, f).Ok? && Hop(job, k, f).value.ledger.Keys == l.Keys
  {
    HopSolvent(job, l, start, k, f);
    var t, g := job.p.path[k].tokenOut, ForwardAt(job, k, f);
    PartiesBeforeDelivery(job, l, start, k, f);
    var m := AtLeastOne(job.p.path[k].amountOutMin);
    assert Balance(g, t, job.self) + Balance(g, t, job.p.trader) + m <= I128_MAX;
    HopForwards(job, l, start, k, f);
    assert ReplyAt(job, k, f) == Accepted(m, g[t := Squeezed(g[t], job.self, job.p.trader, job.self, m)]);
    assert GainAt(job, k, f) == m;
    hide Underway, Sturdy, Moved, Squeezer, Balance, Sound;
  }

  /** With the hop's input forwarded, the parties hold what they held before the swap, less the trader's input. */
  lemma PartiesBeforeDelivery(job: Job, l: Ledger, start: Ledger, k: nat, f: Flow)
    requires Underway(job, l, start, true, true)
    requires k + 1 < |job.p.path| && |f.amounts| == k + 1 && Sturdy(job, l, k, f, true, true) && Forwards(job, k, f)
    ensures forall t :: Balance(ForwardAt(job, k, f), t, job.self) == Balance(l, t, job.self)
    ensures forall t :: Balance(ForwardAt(job, k, f), t, job.p.trader)
                     == Balance(l, t, job.p.trader) - (if t == job.p.tokenIn then job.p.amountIn else 0)
  {
    var step := job.p.path[k];
    var adapter := job.registry[step.protocol];
    assert StepOk(job.p.tokenIn, job.p.path, k);
    MovedBalances(f.ledger, step.tokenIn, job.self, adapter, f.amounts[k]);
    assert adapter != job.self && adapter != job.p.trader;
    hide Moved, Sound, Lawful, Scoped, Spares, Balance;
  }

  lemma {:induction false} SqueezerReaches(job: Job, l: Ledger, start: Ledger, k: nat)
    requires Underway(job, l, start, true, true) && job.venue == Squeezer(job.self, job.p.trader)
    requires k < |job.p.path| && forall j :: 0 <= j < k ==> job.p.path[j].tokenOut in l && Room(job.self, l, job.p, j)
    ensures Reached(job, start, k) && FlowAt(job, start, k).value.ledger.Keys == l.Keys
  {
    assert Underway(job, l, start, false, false);
    hide Hop, Underway, Sturdy, Room, Squeezer;
    if k == 0 {
      PullDue(job, l, start, job.self, true);
    } else {
      SqueezerReaches(job, l, start, k - 1);
      LoopInvariant(job, l, start, k - 1, true, true);
      SqueezerFills(job, l, start, k - 1, FlowAt(job, start, k - 1).value);
    }
  }

  lemma FirstUndeployed(l: Ledger, path: seq<SwapStep>, k: nat) returns (j: nat)
    requires k < |path| && path[k].tokenOut !in l
    ensures j <= k && path[j].tokenOut !in l && forall i :: 0 <= i < j ==> path[i].tokenOut in l
  {
    j := 0;
    while path[j].tokenOut in l
      invariant j <= k && forall i :: 0 <= i < j ==> path[i].tokenOut in l
      decreases k - j
    {
      j := j + 1;
    }
  }

  /** When a trap is possible, the squeezer brings it about. */
  lemma SqueezerTraps(self: Address, s: RouterState, l: Ledger, env: Env, p: SwapParams, k: nat)
    requires Sound(l) && p.trader != self && Preflight(s, l, env, p).Ok? && s.nonce < U64_MAX
    requires AdaptersAvoid(s.registry, p.path, self) && AdaptersAvoid(s.registry, p.path, p.trader)
    requires TrapPossible(self, l, p, k)
    ensures Assumed(self, l, p, Squeezer(self, p.trader))
    ensures Execute(self, s, l, env, p, Squeezer(self, p.trader)) == Trap(NoSuchToken)
  {
    SqueezerAssumed(self, l, p);
    PullSucceeds(self, s, l, env, p);
    var venue, job := Squeezer(self, p.trader), JobOf(self, s, p, Squeezer(self, p.trader));
    var start := Moved(l, p.tokenIn, p.trader, self, p.amountIn).value;
    SetUp(self, s, l, env, p, venue, true, true);
    var j := FirstUndeployed(l, p.path, k);
    hide Preflight, Moved, Underway, Execute, Assumed;
    SqueezerReaches(job, l, start, j);
    assert UndeployedAt(job, start, j);
    hide UndeployedAt;
    Solvency(self, s, l, env, p, venue, start);
  }

  /** Over untrusted adapters that are neither router nor trader, a swap that passed its checks may trap exactly when
      some hop's output token is not deployed and every earlier hop has room to deliver under the supply cap. */
  lemma MayTrap(self: Address, s: RouterState, l: Ledger, env: Env, p: SwapParams)
    requires Sound(l) && p.trader != self && Preflight(s, l, env, p).Ok? && s.nonce < U64_MAX
    requires AdaptersAvoid(s.registry, p.path, self) && AdaptersAvoid(s.registry, p.path, p.trader)
    ensures (exists venue :: Assumed(self, l, p, venue) && Execute(self, s, l, env, p, venue).Trap?)
            <==> (exists k :: TrapPossible(self, l, p, k))
  {
    forall k | TrapPossible(self, l, p, k)
      ensures exists venue :: Assumed(self, l, p, venue) && Execute(self, s, l, env, p, venue).Trap?
    {
      SqueezerTraps(self, s, l, env, p, k);
    }
    forall venue | Assumed(self, l, p, venue) && Execute(self, s, l, env, p, venue).Trap?
      ensures exists k :: TrapPossible(self, l, p, k)
    {
      TrapWasPossible(self, s, l, env, p, venue);
    }
  }

  lemma TrapWasPossible(self: Address, s: RouterState, l: Ledger, env: Env, p: SwapParams, venue: Venue)
    requires Assumed(self, l, p, venue) && Preflight(s, l, env, p).Ok? && s.nonce < U64_MAX
    requires Execute(self, s, l, env, p, venue).Trap?
    ensures exists k :: TrapPossible(self, l, p, k)
  {
    PullSucceeds(self, s, l, env, p);
    var start, job := Moved(l, p.tokenIn, p.trader, self, p.amountIn).value, JobOf(self, s, p, venue);
    Solvency(self, s, l, env, p, venue, start);
    SetUp(self, s, l, env, p, venue, false, false);
    hide Execute, Preflight, Moved, Assumed, Underway, Room;
    var k: nat :| UndeployedAt(job, start, k);
    LoopInvariant(job, l, start, k, false, false);
    forall j | 0 <= j < k
      ensures Room(self, l, p, j)
    {
      ReachedHasRoom(job, l, start, k, j);
    }
    assert TrapPossible(self, l, p, k);
  }
}
