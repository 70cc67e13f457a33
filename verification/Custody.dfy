/** Where the money is during and after a swap, for adapters that are untrusted. */
module Custody {
  import opened Machine
  import opened Tokens
  import opened Interfaces
  import opened Routing
  import opened RouterSteps

  /** `x` is at least `low`; when `exact`, it is `low`. */
  ghost predicate Keeps(exact: bool, low: int, x: int) {
    low <= x && (exact ==> x == low)
  }

  /** No adapter the path resolves to is `who`. */
  ghost predicate AdaptersAvoid(registry: map<Symbol, Address>, path: seq<SwapStep>, who: Address) {
    forall k :: 0 <= k < |path| && path[k].protocol in registry ==> registry[path[k].protocol] != who
  }

  /** What the adapters may do to `who`; when `exact`, that they only ever deliver to it. */
  ghost predicate Treats(job: Job, who: Address, exact: bool) {
    && Lawful(job.venue)
    && Spares(job.venue, who)
    && (exact ==> Scoped(job.venue, who) && AdaptersAvoid(job.registry, job.p.path, who))
  }

  /** What `who` holds of `t` before hop k on top of what it held before the swap: the router the
      input of the hop, the trader the final output less what was pulled, anyone else nothing. */
  ghost function Due(job: Job, k: nat, amounts: seq<i128>, who: Address, t: Address): int
    requires k <= |job.p.path| && |amounts| == k + 1
  {
    if who == job.self then
      if k < |job.p.path| && t == TokenBefore(job.p.tokenIn, job.p.path, k) then amounts[k] else 0
    else if who == job.p.trader then
      (if k == |job.p.path| && t == TokenBefore(job.p.tokenIn, job.p.path, k) then amounts[k] else 0)
      - (if t == job.p.tokenIn then job.p.amountIn else 0)
    else 0
  }

  ghost predicate DueMet(job: Job, l: Ledger, k: nat, f: Flow, who: Address, exact: bool)
    requires k <= |job.p.path| && |f.amounts| == k + 1
  {
    forall t :: Keeps(exact, Balance(l, t, who) + Due(job, k, f.amounts, who, t), Balance(f.ledger, t, who))
  }

  /** A verified hop: the input leaves the router, the verified amount reaches the recipient. */
  lemma HopMoves(job: Job, k: nat, f: Flow, who: Address, exact: bool)
    requires k < |job.p.path| && |f.amounts| == k + 1 && Sound(f.ledger)
    requires Treats(job, who, exact)
    requires Hop(job, k, f).Ok?
    ensures var step, g := job.p.path[k], Hop(job, k, f).value;
            && Sound(g.ledger) && f.ledger.Keys <= g.ledger.Keys
            && step.tokenOut in f.ledger
            && step.protocol in job.registry
            && f.amounts <= g.amounts
            && 0 < g.amounts[k + 1] && step.amountOutMin <= g.amounts[k + 1]
            && forall t :: Keeps(exact,
                                 Balance(f.ledger, t, who)
                                 + Change(step.tokenIn, job.self, job.registry[step.protocol], f.amounts[k], t, who)
                                 + (if who == job.Recipient(k) && t == step.tokenOut then g.amounts[k + 1] else 0),
                                 Balance(g.ledger, t, who))
  {
    var step, g := job.p.path[k], Hop(job, k, f).value;
    var call := job.CallOf(k, f.amounts[k]);
    MovedEffect(f.ledger, step.tokenIn, job.self, call.adapter, f.amounts[k]);
    var forwarded := Moved(f.ledger, step.tokenIn, job.self, call.adapter, f.amounts[k]).value;
    var reply := job.venue(k, call, forwarded);
    assert g == Flow(f.amounts + [Verified(step, call.recipient, forwarded, reply).value], reply.after);
    assert Undebited(forwarded, reply.after, who);
    assert exact ==> OnlyDelivers(forwarded, reply.after, who, call);
  }

  /** The loop invariant for one party, kept by one hop. */
  lemma DueStep(job: Job, l: Ledger, k: nat, f: Flow, who: Address, exact: bool)
    requires k < |job.p.path| && |f.amounts| == k + 1 && Sound(f.ledger) && StepOk(job.p.tokenIn, job.p.path, k)
    requires job.p.trader != job.self
    requires Treats(job, who, exact)
    requires 0 < f.amounts[k] && DueMet(job, l, k, f, who, exact)
    requires Hop(job, k, f).Ok?
    ensures DueMet(job, l, k + 1, Hop(job, k, f).value, who, exact)
  {
    HopMoves(job, k, f, who, exact);
    hide Hop, Treats, Lawful, Spares, Scoped, Sound, Balance;
  }

  /** Before every hop: the ledger is sound, every verified amount is positive and at least its hop's minimum,
      and both parties hold what they are due. */
  ghost predicate Sturdy(job: Job, l: Ledger, k: nat, f: Flow, xr: bool, xt: bool)
    requires k <= |job.p.path| && |f.amounts| == k + 1
  {
    && Sound(f.ledger) && l.Keys <= f.ledger.Keys
    && f.amounts[0] == job.p.amountIn
    && (forall j :: 0 <= j <= k ==> 0 < f.amounts[j])
    && (forall j :: 0 <= j < k ==> job.p.path[j].amountOutMin <= f.amounts[j + 1])
    && DueMet(job, l, k, f, job.self, xr)
    && DueMet(job, l, k, f, job.p.trader, xt)
  }

  /** The setting of a swap that passed its checks and pulled the input, over adapters that cannot debit
      the router or the trader; `xr` and `xt` say for which of the two they are scoped. */
  ghost predicate Underway(job: Job, l: Ledger, start: Ledger, xr: bool, xt: bool) {
    && Sound(l) && job.p.trader != job.self && 0 < job.p.amountIn
    && Moved(l, job.p.tokenIn, job.p.trader, job.self, job.p.amountIn) == Some(start)
    && job.p.path != [] && StepsOk(job.p.tokenIn, job.p.path, |job.p.path|)
    && Registered(job.registry, job.p.path, |job.p.path|)
    && Treats(job, job.self, xr) && Treats(job, job.p.trader, xt)
  }

  lemma PullDue(job: Job, l: Ledger, start: Ledger, who: Address, exact: bool)
    requires Underway(job, l, start, false, false)
    ensures Sound(start) && start.Keys == l.Keys
    ensures DueMet(job, l, 0, Flow([job.p.amountIn], start), who, exact)
  {
    hide Treats;
    MovedEffect(l, job.p.tokenIn, job.p.trader, job.self, job.p.amountIn);
  }

  lemma SturdyStep(job: Job, l: Ledger, start: Ledger, k: nat, f: Flow, xr: bool, xt: bool)
    requires k < |job.p.path| && |f.amounts| == k + 1
    requires Underway(job, l, start, xr, xt) && Sturdy(job, l, k, f, xr, xt)
    requires Hop(job, k, f).Ok?
    ensures Sturdy(job, l, k + 1, Hop(job, k, f).value, xr, xt)
  {
    hide Hop, Treats, DueMet, Keeps;
    HopMoves(job, k, f, job.self, xr);
    DueStep(job, l, k, f, job.self, xr);
    DueStep(job, l, k, f, job.p.trader, xt);
  }

  lemma {:induction false} LoopInvariant(job: Job, l: Ledger, start: Ledger, k: nat, xr: bool, xt: bool)
    requires k <= |job.p.path| && Underway(job, l, start, xr, xt)
    requires FlowAt(job, start, k).Ok?
    ensures Sturdy(job, l, k, FlowAt(job, start, k).value, xr, xt)
  {
    hide Hop, DueMet;
    if k == 0 {
      PullDue(job, l, start, job.self, xr);
      PullDue(job, l, start, job.p.trader, xt);
    } else {
      LoopInvariant(job, l, start, k - 1, xr, xt);
      hide Sturdy, Underway;
      SturdyStep(job, l, start, k - 1, FlowAt(job, start, k - 1).value, xr, xt);
    }
  }

  // ---- One hop, decided ----------------------------------------------------------

  /** A report is covered when it is positive and no more than what the recipient gained. */
  ghost predicate Covered(call: AdapterCall, l: Ledger, reply: AdapterReply) {
    reply.Accepted? ==>
      1 <= reply.reported
        <= Balance(reply.after, call.tokenOut, call.recipient) - Balance(l, call.tokenOut, call.recipient)
  }

  /** The step resolves to an adapter and its input can be forwarded. */
  ghost predicate Forwards(job: Job, k: nat, f: Flow)
    requires k < |job.p.path| && |f.amounts| == k + 1
  {
    var step := job.p.path[k];
    && step.protocol in job.registry
    && Moved(f.ledger, step.tokenIn, job.self, job.registry[step.protocol], f.amounts[k]).Some?
  }

  /** The ledger the adapter of hop k is called in. */
  ghost function ForwardAt(job: Job, k: nat, f: Flow): Ledger
    requires k < |job.p.path| && |f.amounts| == k + 1 && Forwards(job, k, f)
  {
    var step := job.p.path[k];
    Moved(f.ledger, step.tokenIn, job.self, job.registry[step.protocol], f.amounts[k]).value
  }

  ghost function ReplyAt(job: Job, k: nat, f: Flow): AdapterReply
    requires k < |job.p.path| && |f.amounts| == k + 1 && Forwards(job, k, f)
  {
    job.venue(k, job.CallOf(k, f.amounts[k]), ForwardAt(job, k, f))
  }

  /** What the recipient gains across the adapter's call. */
  ghost function GainAt(job: Job, k: nat, f: Flow): int
    requires k < |job.p.path| && |f.amounts| == k + 1 && Forwards(job, k, f) && ReplyAt(job, k, f).Accepted?
  {
    var t, h := job.p.path[k].tokenOut, job.Recipient(k);
    Balance(ReplyAt(job, k, f).after, t, h) - Balance(ForwardAt(job, k, f), t, h)
  }

  /** The adapter accepts, and the recipient gains at least the positive amount it reports. */
  ghost predicate DeliversAt(job: Job, k: nat, f: Flow)
    requires k < |job.p.path| && |f.amounts| == k + 1 && Forwards(job, k, f)
  {
    ReplyAt(job, k, f).Accepted? && Covered(job.CallOf(k, f.amounts[k]), ForwardAt(job, k, f), ReplyAt(job, k, f))
  }

  /** The router can always forward a hop's input. */
  lemma HopForwards(job: Job, l: Ledger, start: Ledger, k: nat, f: Flow)
    requires k < |job.p.path| && Underway(job, l, start, false, false)
    requires |f.amounts| == k + 1 && Sturdy(job, l, k, f, false, false)
    ensures f.amounts[k] <= Balance(f.ledger, job.p.path[k].tokenIn, job.self)
    ensures Forwards(job, k, f) && Sound(ForwardAt(job, k, f)) && ForwardAt(job, k, f).Keys == f.ledger.Keys
  {
    var step := job.p.path[k];
    assert StepOk(job.p.tokenIn, job.p.path, k);
    assert Keeps(false, Balance(l, step.tokenIn, job.self) + f.amounts[k],
                 Balance(f.ledger, step.tokenIn, job.self)) by {
      assert Due(job, k, f.amounts, job.self, step.tokenIn) == f.amounts[k];
    }
    BalanceRange(l, step.tokenIn, job.self);
    MovedEffect(f.ledger, step.tokenIn, job.self, job.registry[step.protocol], f.amounts[k]);
  }

  /** The subtraction of the balances around an adapter's call cannot fail: the recipient's gain is an i128, and
      never negative. */
  lemma GainInRange(job: Job, l: Ledger, start: Ledger, k: nat, f: Flow)
    requires k < |job.p.path| && Underway(job, l, start, false, false)
    requires |f.amounts| == k + 1 && Sturdy(job, l, k, f, false, false)
    requires Forwards(job, k, f) && ReplyAt(job, k, f).Accepted?
    ensures 0 <= GainAt(job, k, f) <= I128_MAX
    ensures Sound(ReplyAt(job, k, f).after) && ForwardAt(job, k, f).Keys <= ReplyAt(job, k, f).after.Keys
  {
    HopForwards(job, l, start, k, f);
    var g, call := ForwardAt(job, k, f), job.CallOf(k, f.amounts[k]);
    var after := job.venue(k, call, g).after;
    assert Undebited(g, after, call.recipient);
    hide Underway, Sturdy, Moved;
    BalanceRange(g, call.tokenOut, call.recipient);
    BalanceRange(after, call.tokenOut, call.recipient);
  }

  /** A hop in a sturdy state never runs short, and how it ends is decided by whether its output token is deployed,
      what the recipient gains and what is reported: there is no other way for it to fail. */
  lemma HopSolvent(job: Job, l: Ledger, start: Ledger, k: nat, f: Flow)
    requires k < |job.p.path| && Underway(job, l, start, false, false)
    requires |f.amounts| == k + 1 && Sturdy(job, l, k, f, false, false)
    ensures Forwards(job, k, f) && f.amounts[k] <= Balance(f.ledger, job.p.path[k].tokenIn, job.self)
    ensures ReplyAt(job, k, f).Accepted? ==> 0 <= GainAt(job, k, f) <= I128_MAX
    ensures var r, deployed := Hop(job, k, f), job.p.path[k].tokenOut in f.ledger;
            && (!deployed ==> r == Trap(NoSuchToken))
            && (deployed && !DeliversAt(job, k, f) ==> r == Err(SwapFailed))
            && (deployed && DeliversAt(job, k, f) && GainAt(job, k, f) < job.p.path[k].amountOutMin ==>
                  r == Err(InsufficientOutput))
            && (deployed && DeliversAt(job, k, f) && GainAt(job, k, f) >= job.p.path[k].amountOutMin ==> r.Ok?)
  {
    HopForwards(job, l, start, k, f);
    if ReplyAt(job, k, f).Accepted? {
      GainInRange(job, l, start, k, f);
    }
    hide Underway, Sturdy, Hop, Forwards, ReplyAt, GainAt, ForwardAt, DeliversAt, Balance, Sound;
    HopVerdict(job, k, f);
  }

  /** A hop whose input was forwarded ends by deployment, reply and gain. */
  lemma HopVerdict(job: Job, k: nat, f: Flow)
    requires k < |job.p.path| && |f.amounts| == k + 1
    requires Forwards(job, k, f) && ForwardAt(job, k, f).Keys == f.ledger.Keys
    requires ReplyAt(job, k, f).Accepted? ==>
               0 <= GainAt(job, k, f) <= I128_MAX && ForwardAt(job, k, f).Keys <= ReplyAt(job, k, f).after.Keys
    ensures var r, deployed := Hop(job, k, f), job.p.path[k].tokenOut in f.ledger;
            && (!deployed ==> r == Trap(NoSuchToken))
            && (deployed && !DeliversAt(job, k, f) ==> r == Err(SwapFailed))
            && (deployed && DeliversAt(job, k, f) && GainAt(job, k, f) < job.p.path[k].amountOutMin ==>
                  r == Err(InsufficientOutput))
            && (deployed && DeliversAt(job, k, f) && GainAt(job, k, f) >= job.p.path[k].amountOutMin ==> r.Ok?)
  {
    hide Moved, Balance;
  }

  // ---- Results about a whole swap ------------------------------------------------

  ghost function JobOf(self: Address, s: RouterState, p: SwapParams, venue: Venue): Job {
    Job(self, s.registry, p, venue)
  }

  /** Standing assumptions: a sound ledger, a trader that is not the router, and adapters on standard tokens
      that can debit neither. */
  ghost predicate Assumed(self: Address, l: Ledger, p: SwapParams, venue: Venue) {
    && Sound(l) && p.trader != self
    && Lawful(venue) && Spares(venue, self) && Spares(venue, p.trader)
  }

  /** Passing the checks and pulling the input set the hop loop up. */
  lemma SetUp(self: Address, s: RouterState, l: Ledger, env: Env, p: SwapParams, venue: Venue,
        xr: bool, xt: bool)
    requires Assumed(self, l, p, venue) && Preflight(s, l, env, p).Ok?
    requires xr ==> Treats(JobOf(self, s, p, venue), self, true)
    requires xt ==> Treats(JobOf(self, s, p, venue), p.trader, true)
    ensures Moved(l, p.tokenIn, p.trader, self, p.amountIn).Some?
    ensures Underway(JobOf(self, s, p, venue), l, Moved(l, p.tokenIn, p.trader, self, p.amountIn).value, xr, xt)
    ensures 0 < p.amountOutMin && TokenBefore(p.tokenIn, p.path, |p.path|) == p.tokenOut
  {
    MovedEffect(l, p.tokenIn, p.trader, self, p.amountIn);
  }

  /** After a swap that settles for `v`, every hop's verified amount is positive and at least its minimum, `v` is at
      least the swap's minimum, and for every token the router holds no less than before and the trader no less than
      before plus `v` of the output less the input; a party for which the adapters are scoped holds exactly that. */
  lemma SwapSettles(self: Address, s: RouterState, l: Ledger, env: Env, p: SwapParams, venue: Venue,
        xr: bool, xt: bool)
    requires Assumed(self, l, p, venue)
    requires xr ==> Treats(JobOf(self, s, p, venue), self, true)
    requires xt ==> Treats(JobOf(self, s, p, venue), p.trader, true)
    requires Execute(self, s, l, env, p, venue).Ok?
    ensures var f := Execute(self, s, l, env, p, venue).value;
            var n := |p.path|;
            && Sound(f.ledger)
            && f.amounts[0] == p.amountIn && 0 < p.amountOutMin <= f.amounts[n]
            && (forall k :: 0 <= k < n ==> 0 < f.amounts[k + 1] && p.path[k].amountOutMin <= f.amounts[k + 1])
            && (forall t :: Keeps(xr, Balance(l, t, self), Balance(f.ledger, t, self)))
            && (forall t :: Keeps(xt,
                                  Balance(l, t, p.trader) + (if t == p.tokenOut then f.amounts[n] else 0)
                                  - (if t == p.tokenIn then p.amountIn else 0),
                                  Balance(f.ledger, t, p.trader)))
  {
    SetUp(self, s, l, env, p, venue, xr, xt);
    hide Preflight, Moved, Underway, Treats, Balance, Keeps;
    var start := Moved(l, p.tokenIn, p.trader, self, p.amountIn).value;
    var job := JobOf(self, s, p, venue);
    LoopInvariant(job, l, start, |p.path|, xr, xt);
    var f := FlowAt(job, start, |p.path|).value;
    hide FlowAt;
    DuesAtEnd(job, l, f, xr, xt);
  }

  /** After the last hop the router is due nothing, and the trader the last amount less its input. */
  lemma DuesAtEnd(job: Job, l: Ledger, f: Flow, xr: bool, xt: bool)
    requires job.p.trader != job.self && |f.amounts| == |job.p.path| + 1
    requires TokenBefore(job.p.tokenIn, job.p.path, |job.p.path|) == job.p.tokenOut
    requires Sturdy(job, l, |job.p.path|, f, xr, xt)
    ensures forall t :: Keeps(xr, Balance(l, t, job.self), Balance(f.ledger, t, job.self))
    ensures forall t :: Keeps(xt,
                              Balance(l, t, job.p.trader) + (if t == job.p.tokenOut then f.amounts[|job.p.path|] else 0)
                              - (if t == job.p.tokenIn then job.p.amountIn else 0),
                              Balance(f.ledger, t, job.p.trader))
  {
    hide Balance, Sound;
  }

  // ---- Reports ---------------------------------------------------------------------

  /** Two replies to a call deliver alike when they differ at most in what they report and are both covered or both not;
      the output token stays deployed. */
  ghost predicate RepliesAlike(call: AdapterCall, l: Ledger, x: AdapterReply, y: AdapterReply) {
    && (x.Accepted? <==> y.Accepted?)
    && (x.Accepted? ==> x.after == y.after && (call.tokenOut in l ==> call.tokenOut in x.after))
    && (Covered(call, l, x) <==> Covered(call, l, y))
  }

  /** The call the adapter of hop k has to receive: the step's own terms, for the trader in the last hop and for the
      router in every other. */
  ghost function Owed(job: Job, k: nat, amountIn: i128): AdapterCall
    requires k < |job.p.path| && job.p.path[k].protocol in job.registry
  {
    var step := job.p.path[k];
    AdapterCall(job.registry[step.protocol], step.pool, step.tokenIn, step.tokenOut, amountIn, step.amountOutMin,
                if k == |job.p.path| - 1 then job.p.trader else job.self)
  }

  /** At every call that the job's loop makes, `w` delivers like the job's own adapters. */
  ghost predicate DeliverAlike(job: Job, w: Venue, start: Ledger) {
    forall k :: 0 <= k < |job.p.path| && FlowAt(job, start, k).Ok? && Forwards(job, k, FlowAt(job, start, k).value) ==>
      var f := FlowAt(job, start, k).value;
      var call, l := Owed(job, k, f.amounts[k]), ForwardAt(job, k, f);
      RepliesAlike(call, l, job.venue(k, call, l), w(k, call, l))
  }

  lemma {:induction false} FlowsAlike(job: Job, w: Venue, start: Ledger, k: nat)
    requires k <= |job.p.path| && DeliverAlike(job, w, start)
    ensures FlowAt(job, start, k) == FlowAt(job.(venue := w), start, k)
  {
    hide Hop, RepliesAlike, Forwards, ForwardAt;
    if k > 0 {
      FlowsAlike(job, w, start, k - 1);
      if FlowAt(job, start, k - 1).Ok? {
        HopsAlike(job, w, k - 1, FlowAt(job, start, k - 1).value);
      }
    }
  }

  lemma HopsAlike(job: Job, w: Venue, k: nat, f: Flow)
    requires k < |job.p.path| && |f.amounts| == k + 1
    requires Forwards(job, k, f) ==>
               var call, l := Owed(job, k, f.amounts[k]), ForwardAt(job, k, f);
               RepliesAlike(call, l, job.venue(k, call, l), w(k, call, l))
    ensures Hop(job, k, f) == Hop(job.(venue := w), k, f)
  {
    var step := job.p.path[k];
    if step.protocol in job.registry {
      var call := job.CallOf(k, f.amounts[k]);
      var forwarded := Moved(f.ledger, step.tokenIn, job.self, call.adapter, f.amounts[k]);
      if forwarded.Some? && step.tokenOut in forwarded.value {
        var x, y := job.venue(k, call, forwarded.value), w(k, call, forwarded.value);
        assert Covered(call, forwarded.value, x) <==> Covered(call, forwarded.value, y);
      }
    }
  }

  /** What adapters report decides nothing beyond whether it is covered: the outcome, the storage, the events and the
      ledger of a swap are the same for adapters that deliver alike at the calls the swap makes. */
  lemma ReportIndependence(self: Address, before: World, env: Env, p: SwapParams, v: Venue, w: Venue)
    requires var pulled := Moved(before.ledger, p.tokenIn, p.trader, self, p.amountIn);
             Preflight(before.router, before.ledger, env, p).Ok? && before.router.nonce < U64_MAX && pulled.Some? ==>
               DeliverAlike(JobOf(self, before.router, p, v), w, pulled.value)
    ensures Perform(self, before, env, Swap(p, v)) == Perform(self, before, env, Swap(p, w))
    ensures Transact(self, before, env, Swap(p, v)) == Transact(self, before, env, Swap(p, w))
  {
    var l := before.ledger;
    var pulled := Moved(l, p.tokenIn, p.trader, self, p.amountIn);
    if Preflight(before.router, l, env, p).Ok? && before.router.nonce < U64_MAX && pulled.Some? {
      FlowsAlike(JobOf(self, before.router, p, v), w, pulled.value, |p.path|);
    }
  }

  /** At every hop a swap gets through, the adapter accepted, its report was covered, and the amount that is chained and
      recorded is what the recipient gained across the adapter's call. */
  lemma ChainedIsDelivered(job: Job, start: Ledger, k: nat)
    requires k < |job.p.path| && FlowAt(job, start, k + 1).Ok?
    ensures FlowAt(job, start, k).Ok? && job.p.path[k].protocol in job.registry
    ensures var f, g := FlowAt(job, start, k).value, FlowAt(job, start, k + 1).value;
            var call := Owed(job, k, f.amounts[k]);
            var forwarded := Moved(f.ledger, call.tokenIn, job.self, call.adapter, f.amounts[k]);
            && forwarded.Some?
            && job.venue(k, call, forwarded.value).Accepted? && g.ledger == job.venue(k, call, forwarded.value).after
            && Covered(call, forwarded.value, job.venue(k, call, forwarded.value))
            && g.amounts[k + 1] == Balance(g.ledger, call.tokenOut, call.recipient)
                                   - Balance(forwarded.value, call.tokenOut, call.recipient)
  {
    hide Moved, Balance;
  }

  // ---- Whole histories ---------------------------------------------------------------

  /** A transaction in which nothing but the swap itself touches the router's balances: no one debits the router, and
      when `exact`, adapters are scoped for it, are never the router, and no one else credits it. */
  ghost predicate HandsOff(self: Address, w: World, a: Action, exact: bool) {
    match a
    case Swap(p, venue) =>
      && p.trader != self && Lawful(venue) && Spares(venue, self) && Spares(venue, p.trader)
      && (exact ==> Scoped(venue, self))
    case SetProtocol(_, adapter) => exact ==> adapter != self
    case Elsewhere(after) =>
      Sound(after) && forall t :: Keeps(exact, Balance(w.ledger, t, self), Balance(after, t, self))
    case _ => true
  }

  ghost predicate HandsOffRun(self: Address, ledger: Ledger, h: History, exact: bool) {
    forall k :: 0 <= k < |h| ==> HandsOff(self, Run(self, ledger, h[..k]), h[k].1, exact)
  }

  ghost predicate Kept(self: Address, ledger: Ledger, w: World, exact: bool) {
    && Sound(w.ledger)
    && (exact ==> self !in w.router.registry.Values)
    && forall t :: Keeps(exact, Balance(ledger, t, self), Balance(w.ledger, t, self))
  }

  lemma KeptBySwap(self: Address, ledger: Ledger, w: World, env: Env, p: SwapParams, venue: Venue, exact: bool)
    requires Kept(self, ledger, w, exact) && HandsOff(self, w, Swap(p, venue), exact)
    ensures Kept(self, ledger, Transact(self, w, env, Swap(p, venue)), exact)
  {
    if Execute(self, w.router, w.ledger, env, p, venue).Ok? {
      var job := JobOf(self, w.router, p, venue);
      assert exact ==> AdaptersAvoid(job.registry, p.path, self);
      assert Treats(job, self, exact);
      SwapSettles(self, w.router, w.ledger, env, p, venue, exact, false);
    }
    hide Execute, Sound, Treats, Scoped, Spares, Lawful;
  }

  lemma KeptByManagement(self: Address, ledger: Ledger, w: World, env: Env, a: Action, exact: bool)
    requires !a.Swap? && Kept(self, ledger, w, exact) && HandsOff(self, w, a, exact)
    ensures Kept(self, ledger, Transact(self, w, env, a), exact)
  {
  }

  /** Over any history in which no one debits the router, its balance of every token never ends below where it
      started; when nothing but swaps through scoped adapters touches it, the balance is unchanged. */
  lemma {:induction false} RouterCustodyOverRuns(self: Address, ledger: Ledger, h: History, exact: bool)
    requires Sound(ledger) && HandsOffRun(self, ledger, h, exact)
    ensures Kept(self, ledger, Run(self, ledger, h), exact)
  {
    if h != [] {
      var prefix := h[..|h| - 1];
      assert forall k :: 0 <= k < |prefix| ==> prefix[..k] == h[..k] && prefix[k] == h[k];
      RouterCustodyOverRuns(self, ledger, prefix, exact);
      var (env, a) := h[|h| - 1];
      assert HandsOff(self, Run(self, ledger, prefix), a, exact);
      hide Kept, HandsOff, HandsOffRun, Transact;
      if a.Swap? {
        KeptBySwap(self, ledger, Run(self, ledger, prefix), env, a.params, a.venue, exact);
      } else {
        KeptByManagement(self, ledger, Run(self, ledger, prefix), env, a, exact);
      }
    }
  }
}
