/** Swaps over test adapters are a pure fold of their prices along the path. */
module Refinement {
  import opened Machine
  import opened FixedPoint
  import opened Tokens
  import opened Interfaces
  import opened Routing
  import opened TestAdapter
  import opened Sums
  import opened Router

  /** The behaviour of deployed test adapters; nothing else answers. */
  function TestVenue(adapters: map<Address, AdapterState>): Venue {
    (k: nat, call: AdapterCall, l: Ledger) =>
      if call.adapter in adapters then SwapReply(adapters[call.adapter], call, l) else Refused
  }

  /** A swap to price: every protocol of the path resolves to a test adapter other than the router. */
  datatype Order = Order(
    self: Address, registry: map<Symbol, Address>, adapters: map<Address, AdapterState>, p: SwapParams)
  {
    ghost predicate Valid() {
      && p.trader != self
      && (forall k :: 0 <= k < |p.path| ==>
            && p.path[k].protocol in registry
            && registry[p.path[k].protocol] in adapters
            && registry[p.path[k].protocol] != self)
    }

    ghost function Adapter(k: nat): Address
      requires Valid() && k < |p.path|
    {
      registry[p.path[k].protocol]
    }

    ghost function State(k: nat): AdapterState
      requires Valid() && k < |p.path|
    {
      adapters[Adapter(k)]
    }

    ghost function Rates(): (r: seq<Rate>)
      requires Valid()
      ensures |r| == |p.path|
    {
      seq(|p.path|, k requires 0 <= k < |p.path| =>
        if p.path[k].pool in State(k).rates then State(k).rates[p.path[k].pool] else Rate(1, 1))
    }

    /** The amount held after k hops by the prices alone. */
    ghost function Price(k: nat): Option<i128>
      requires Valid() && k <= |p.path|
    {
      PriceAfter(p.amountIn, Rates(), k)
    }

    ghost function Amount(k: nat): i128
      requires Valid() && k <= |p.path|
    {
      if Price(k).Some? then Price(k).value else 0
    }

    /** The net change, by k hops of the swap, in what `h` holds of `t`: the trader pays the input, each adapter
        takes its hop's input and gives its output, and the trader gets the last output. The router is not involved. */
    ghost function Net(k: nat, t: Address, h: Address): int
      requires Valid() && k <= |p.path|
      decreases k
    {
      if k == 0 then
        var paid: int := p.amountIn;
        if h == p.trader && t == p.tokenIn then -paid else 0
      else
        var step := p.path[k - 1];
        Net(k - 1, t, h)
        + (if h == Adapter(k - 1) && t == step.tokenIn then Amount(k - 1) else 0)
        - (if h == Adapter(k - 1) && t == step.tokenOut then Amount(k) else 0)
        + (if k == |p.path| && h == p.trader && t == step.tokenOut then Amount(k) else 0)
    }

    ghost function Amounts(): (r: seq<i128>)
      requires Valid()
      ensures |r| == |p.path| + 1
    {
      seq(|p.path| + 1, k requires 0 <= k <= |p.path| => Amount(k))
    }

    /** Hop k can deliver its amount: its adapter is set up and not failing, the report is covered, the adapter's
        inventory suffices after the earlier hops and with the input just forwarded, and the last adapter does not
        have to pay itself. */
    ghost predicate Delivers(l: Ledger, k: nat)
      requires Valid() && k < |p.path|
    {
      var step := p.path[k];
      && State(k).admin.Some? && !(step.pool in State(k).fails && State(k).fails[step.pool])
      && (if step.pool in State(k).misreports then 1 <= State(k).misreports[step.pool] <= Amount(k + 1)
          else 1 <= Amount(k + 1))
      && Amount(k + 1) <= Balance(l, step.tokenOut, Adapter(k)) + Net(k, step.tokenOut, Adapter(k))
                          + (if step.tokenIn == step.tokenOut then Amount(k) else 0)
      && (k + 1 == |p.path| ==> Adapter(k) != p.trader)
    }

    /** Given its price, hop k can be filled: its output token is deployed, and it can deliver its minimum. */
    ghost predicate Covers(l: Ledger, k: nat)
      requires Valid() && k < |p.path|
    {
      p.path[k].tokenOut in l && Delivers(l, k) && p.path[k].amountOutMin <= Amount(k + 1)
    }

    /** How hop k ends once it is reached. */
    ghost function Ends(l: Ledger, k: nat): Outcome<i128, RouterError>
      requires Valid() && k < |p.path|
    {
      if p.path[k].tokenOut !in l then Trap(NoSuchToken)
      else if !Delivers(l, k) then Err(SwapFailed)
      else if Amount(k + 1) < p.path[k].amountOutMin then Err(InsufficientOutput)
      else Ok(Amount(k + 1))
    }

    /** Hop k can be priced and filled. */
    ghost predicate Fills(l: Ledger, k: nat)
      requires Valid() && k < |p.path|
    {
      Price(k + 1).Some? && Covers(l, k)
    }

    /** Hop k can be filled and its product of amount and rate does not overflow. */
    ghost predicate FillsInRange(l: Ledger, k: nat)
      requires Valid() && k < |p.path|
    {
      Amount(k) * Rates()[k].num <= I128_MAX && Covers(l, k)
    }

    ghost predicate FillsTo(l: Ledger, n: nat)
      requires Valid() && n <= |p.path|
    {
      forall k :: 0 <= k < n ==> Fills(l, k)
    }

    ghost predicate FillsInRangeTo(l: Ledger, n: nat)
      requires Valid() && n <= |p.path|
    {
      forall k :: 0 <= k < n ==> FillsInRange(l, k)
    }

    ghost predicate Fillable(l: Ledger)
      requires Valid()
    {
      FillsTo(l, |p.path|)
    }

    ghost function ToJob(): Job {
      Job(self, registry, p, TestVenue(adapters))
    }
  }

  /** The flow before hop k is the fold's: its amounts are the prices, and its ledger is off by the net change and by
      what the router is carrying. */
  ghost predicate Matches(o: Order, l: Ledger, k: nat, f: Flow)
    requires o.Valid() && k <= |o.p.path| && |f.amounts| == k + 1
  {
    && Sound(f.ledger) && f.ledger.Keys == l.Keys
    && (forall u :: Supply(f.ledger, u) == Supply(l, u))
    && (forall j :: 0 <= j <= k ==> o.Price(j) == Some(f.amounts[j]))
    && 0 < f.amounts[k]
    && forall t, h :: Balance(f.ledger, t, h) == Balance(l, t, h) + o.Net(k, t, h) + Carried(o, k, t, h)
  }

  ghost function Carried(o: Order, k: nat, t: Address, h: Address): int
    requires o.Valid() && k <= |o.p.path|
  {
    if h == o.self && k < |o.p.path| && t == TokenBefore(o.p.tokenIn, o.p.path, k) then o.Amount(k) else 0
  }

  lemma {:induction false} RouterNetsNothing(o: Order, k: nat, t: Address)
    requires o.Valid() && k <= |o.p.path|
    ensures o.Net(k, t, o.self) == 0
  {
    if k > 0 {
      RouterNetsNothing(o, k - 1, t);
    }
  }

  ghost function CallAt(o: Order, k: nat, f: Flow): AdapterCall
    requires o.Valid() && k < |o.p.path| && |f.amounts| == k + 1
  {
    o.ToJob().CallOf(k, f.amounts[k])
  }

  /** The ledger an adapter is called in: the fold's, with the hop's input at the adapter. */
  ghost predicate Forwarded(o: Order, l: Ledger, k: nat, f: Flow, g: Ledger)
    requires o.Valid() && k < |o.p.path| && |f.amounts| == k + 1
  {
    && Sound(g) && g.Keys == l.Keys
    && (forall u :: Supply(g, u) == Supply(l, u))
    && o.p.path[k].tokenIn in g
    && f.amounts[k] <= Balance(g, o.p.path[k].tokenIn, o.Adapter(k))
    && forall t, h :: Balance(g, t, h) == Balance(l, t, h) + o.Net(k, t, h)
                        + (if h == o.Adapter(k) && t == o.p.path[k].tokenIn then o.Amount(k) else 0)
  }

  lemma ForwardReaches(o: Order, l: Ledger, k: nat, f: Flow)
    requires o.Valid() && k < |o.p.path| && |f.amounts| == k + 1
    requires Sound(l) && Linked(o.p.tokenIn, o.p.path, k) && Matches(o, l, k, f)
    ensures var g := Moved(f.ledger, o.p.path[k].tokenIn, o.self, o.Adapter(k), f.amounts[k]);
            g.Some? && Forwarded(o, l, k, f, g.value)
  {
    var t := o.p.path[k].tokenIn;
    BalanceRange(l, t, o.self);
    RouterNetsNothing(o, k, t);
    assert f.amounts[k] <= Balance(f.ledger, t, o.self);
    MovedEffect(f.ledger, t, o.self, o.Adapter(k), f.amounts[k]);
    var g := Moved(f.ledger, t, o.self, o.Adapter(k), f.amounts[k]).value;
    hide Moved, Sound, Supply;
    BalanceRange(f.ledger, t, o.Adapter(k));
    forall u, h
      ensures Balance(g, u, h)
           == Balance(l, u, h) + o.Net(k, u, h) + (if h == o.Adapter(k) && u == t then o.Amount(k) else 0)
    {
    }
  }

  /** What the adapter answers in that ledger. */
  lemma ReplyFills(o: Order, l: Ledger, k: nat, f: Flow, g: Ledger)
    requires o.Valid() && k < |o.p.path| && |f.amounts| == k + 1
    requires Matches(o, l, k, f) && Forwarded(o, l, k, f, g)
    ensures var step := o.p.path[k];
            var reply := SwapReply(o.State(k), CallAt(o, k, f), g);
            && (reply.Accepted? <==>
                  && o.State(k).admin.Some? && !o.State(k).Failing(step.pool)
                  && o.Price(k + 1).Some? && step.tokenOut in g
                  && o.Amount(k + 1) <= Balance(g, step.tokenOut, o.Adapter(k)))
            && (reply.Accepted? ==>
                  && reply.reported == o.State(k).Report(step.pool, o.Price(k + 1).value)
                  && Sound(reply.after) && reply.after.Keys == g.Keys
                  && (forall u :: Supply(reply.after, u) == Supply(g, u))
                  && forall u, h :: Balance(reply.after, u, h)
                       == Balance(g, u, h)
                          + Change(step.tokenOut, o.Adapter(k), o.ToJob().Recipient(k), o.Amount(k + 1), u, h))
  {
    var call := CallAt(o, k, f);
    assert o.Price(k) == Some(f.amounts[k]);
    var rate := o.State(k).RateOf(call.pool);
    assert o.Rates()[k] == rate;
    assert o.Price(k + 1) == CheckedMulDiv(f.amounts[k], rate.num, rate.denom);
    SwapDelivers(o.State(k), call, g);
  }

  /** A hop is its forward, the adapter's reply and the verdict on it. */
  lemma HopByReply(o: Order, k: nat, f: Flow, g: Ledger)
    requires o.Valid() && k < |o.p.path| && |f.amounts| == k + 1
    requires Moved(f.ledger, o.p.path[k].tokenIn, o.self, o.Adapter(k), f.amounts[k]) == Some(g)
    ensures var step, job := o.p.path[k], o.ToJob();
            var reply := SwapReply(o.State(k), CallAt(o, k, f), g);
            var v := Verified(step, job.Recipient(k), g, reply);
            Hop(job, k, f) == if step.tokenOut !in g then Trap(NoSuchToken)
                              else if v.Ok? then Ok(Flow(f.amounts + [v.value], reply.after))
                              else v.PropagateFailure()
  {
    hide SwapReply, Verified, Moved;
    assert o.ToJob().venue(k, CallAt(o, k, f), g) == SwapReply(o.State(k), CallAt(o, k, f), g);
  }

  /** The verdict on a reply that gains the recipient the fold's amount, or nothing when the adapter pays itself. */
  lemma VerdictFills(o: Order, l: Ledger, k: nat, g: Ledger, reply: AdapterReply)
    requires o.Valid() && k < |o.p.path| && g.Keys == l.Keys
    requires var t := o.p.path[k].tokenOut;
             && Balance(g, t, o.Adapter(k)) == Balance(l, t, o.Adapter(k)) + o.Net(k, t, o.Adapter(k))
                                               + (if o.p.path[k].tokenIn == t then o.Amount(k) else 0)
             && (reply.Accepted? <==>
                   && o.State(k).admin.Some? && !o.State(k).Failing(o.p.path[k].pool)
                   && o.Price(k + 1).Some? && t in g && o.Amount(k + 1) <= Balance(g, t, o.Adapter(k)))
             && (reply.Accepted? ==>
                   && t in reply.after
                   && reply.reported == o.State(k).Report(o.p.path[k].pool, o.Price(k + 1).value)
                   && Balance(reply.after, t, o.ToJob().Recipient(k)) - Balance(g, t, o.ToJob().Recipient(k))
                      == (if k + 1 == |o.p.path| && o.Adapter(k) == o.p.trader then 0 else o.Amount(k + 1)))
    ensures var step := o.p.path[k];
            var v := Verified(step, o.ToJob().Recipient(k), g, reply);
            && (o.Ends(l, k).Ok? <==> o.Fills(l, k))
            && (step.tokenOut in g ==> v == o.Ends(l, k))
            && (o.Fills(l, k) ==> reply.Accepted? && o.Price(k + 1) == Some(o.Amount(k + 1)))
  {
    hide Order.Net, Order.Price, Order.State, Order.Adapter, Balance;
  }

  /** The adapter's reply passes verification exactly when the hop can be filled, and for the fold's amount; otherwise
      the hop fails as its state says. */
  lemma VerifiedFills(o: Order, l: Ledger, k: nat, f: Flow, g: Ledger)
    requires o.Valid() && k < |o.p.path| && |f.amounts| == k + 1
    requires Matches(o, l, k, f) && Forwarded(o, l, k, f, g)
    ensures var step := o.p.path[k];
            var reply := SwapReply(o.State(k), CallAt(o, k, f), g);
            var v := Verified(step, o.ToJob().Recipient(k), g, reply);
            && (o.Ends(l, k).Ok? <==> o.Fills(l, k))
            && (step.tokenOut in g ==> v == o.Ends(l, k))
            && (o.Fills(l, k) ==> reply.Accepted? && o.Price(k + 1) == Some(o.Amount(k + 1)))
  {
    hide Verified, Order.Fills, Order.Ends, Order.Delivers, Order.Net, Order.Price, SwapReply;
    ReplyFills(o, l, k, f, g);
    VerdictFills(o, l, k, g, SwapReply(o.State(k), CallAt(o, k, f), g));
  }

  lemma HopFills(o: Order, l: Ledger, k: nat, f: Flow)
    requires o.Valid() && k < |o.p.path| && |f.amounts| == k + 1
    requires Sound(l) && Linked(o.p.tokenIn, o.p.path, k) && Matches(o, l, k, f)
    ensures Hop(o.ToJob(), k, f).Ok? <==> o.Fills(l, k)
    ensures Hop(o.ToJob(), k, f).Ok? ==> Matches(o, l, k + 1, Hop(o.ToJob(), k, f).value)
    ensures !o.Fills(l, k) ==> !o.Ends(l, k).Ok? && Hop(o.ToJob(), k, f) == o.Ends(l, k).PropagateFailure()
  {
    ForwardReaches(o, l, k, f);
    var g := Moved(f.ledger, o.p.path[k].tokenIn, o.self, o.Adapter(k), f.amounts[k]).value;
    HopByReply(o, k, f, g);
    VerifiedFills(o, l, k, f, g);
    assert g.Keys == l.Keys && forall u :: Supply(g, u) == Supply(l, u);
    hide Hop, SwapReply, Moved, Verified, Forwarded, Matches, Sound, Supply, Balance, Change;
    if o.Fills(l, k) {
      ReplyFills(o, l, k, f, g);
      DeliveryMatches(o, l, k, f, g, SwapReply(o.State(k), CallAt(o, k, f), g).after);
    }
  }

  /** A ledger in which the fold's amount has moved on from the adapter matches the fold one hop further. */
  lemma DeliveryMatches(o: Order, l: Ledger, k: nat, f: Flow, g: Ledger, after: Ledger)
    requires o.Valid() && k < |o.p.path| && |f.amounts| == k + 1
    requires Matches(o, l, k, f) && Forwarded(o, l, k, f, g)
    requires o.Price(k + 1).Some? && 0 < o.Price(k + 1).value
    requires Sound(after) && after.Keys == l.Keys && (forall u :: Supply(after, u) == Supply(l, u))
    requires forall t, h ::
      Balance(after, t, h) == Balance(g, t, h)
        + Change(o.p.path[k].tokenOut, o.Adapter(k), o.ToJob().Recipient(k), o.Amount(k + 1), t, h)
    ensures Matches(o, l, k + 1, Flow(f.amounts + [o.Price(k + 1).value], after))
  {
    var next := Flow(f.amounts + [o.Price(k + 1).value], after);
    forall j | 0 <= j <= k + 1
      ensures o.Price(j) == Some(next.amounts[j])
    {
      assert j <= k ==> o.Price(j) == Some(f.amounts[j]);
    }
    hide Sound, Supply, Balance, Change, Carried, Order.Net, Order.Price;
    forall t, h
      ensures Balance(after, t, h) == Balance(l, t, h) + o.Net(k + 1, t, h) + Carried(o, k + 1, t, h)
    {
      NetStep(o, k, t, h);
    }
  }

  /** A hop adds to the net change, and to what the router carries, its input at the adapter and its output's move. */
  lemma NetStep(o: Order, k: nat, t: Address, h: Address)
    requires o.Valid() && k < |o.p.path|
    ensures o.Net(k + 1, t, h) + Carried(o, k + 1, t, h)
            == o.Net(k, t, h) + (if h == o.Adapter(k) && t == o.p.path[k].tokenIn then o.Amount(k) else 0)
               + Change(o.p.path[k].tokenOut, o.Adapter(k), o.ToJob().Recipient(k), o.Amount(k + 1), t, h)
  {
    hide Order.Price;
  }

  /** The setting of an order whose input has been pulled. */
  ghost predicate Pulled(o: Order, l: Ledger, start: Ledger) {
    && o.Valid() && o.p.path != [] && Sound(l) && 0 < o.p.amountIn
    && StepsOk(o.p.tokenIn, o.p.path, |o.p.path|)
    && Moved(l, o.p.tokenIn, o.p.trader, o.self, o.p.amountIn) == Some(start)
  }

  lemma StartMatches(o: Order, l: Ledger, start: Ledger)
    requires Pulled(o, l, start)
    ensures Matches(o, l, 0, Flow([o.p.amountIn], start))
  {
    MovedEffect(l, o.p.tokenIn, o.p.trader, o.self, o.p.amountIn);
    hide Moved, Sound, Supply, Balance;
  }

  /** Before hop k the loop has succeeded exactly when the earlier hops can be filled, and then matches the fold. */
  lemma {:induction false} FlowFills(o: Order, l: Ledger, start: Ledger, k: nat)
    requires Pulled(o, l, start) && k <= |o.p.path|
    ensures var r := FlowAt(o.ToJob(), start, k);
            && (r.Ok? <==> forall j :: 0 <= j < k ==> o.Fills(l, j))
            && (r.Ok? ==> Matches(o, l, k, r.value))
  {
    hide Hop, Matches, Order.Fills;
    if k == 0 {
      StartMatches(o, l, start);
    } else {
      FlowFills(o, l, start, k - 1);
      var r := FlowAt(o.ToJob(), start, k - 1);
      if r.Ok? {
        assert StepOk(o.p.tokenIn, o.p.path, k - 1);
        HopFills(o, l, k - 1, r.value);
      }
    }
  }

  /** A loop that reaches a hop that cannot be filled ends there. */
  lemma FlowFails(o: Order, l: Ledger, start: Ledger, k: nat)
    requires Pulled(o, l, start) && k < |o.p.path| && o.FillsTo(l, k) && !o.Fills(l, k)
    ensures !o.Ends(l, k).Ok? && FlowAt(o.ToJob(), start, |o.p.path|) == o.Ends(l, k).PropagateFailure()
  {
    assert StepOk(o.p.tokenIn, o.p.path, k);
    hide Hop, Order.Fills, Order.Ends, Matches, Moved, Sound, Order.Valid;
    FlowFills(o, l, start, k);
    HopFills(o, l, k, FlowAt(o.ToJob(), start, k).value);
    FailureSticks(o.ToJob(), start, k + 1, |o.p.path|);
    assert FlowAt(o.ToJob(), start, k + 1) == Hop(o.ToJob(), k, FlowAt(o.ToJob(), start, k).value);
    hide FlowAt, Pulled, Linked;
  }

  lemma {:induction false} FirstUnfilled(o: Order, l: Ledger, n: nat) returns (k: nat)
    requires o.Valid() && n <= |o.p.path| && !o.FillsTo(l, n)
    ensures k < n && o.FillsTo(l, k) && !o.Fills(l, k)
  {
    if o.FillsTo(l, n - 1) {
      k := n - 1;
    } else {
      k := FirstUnfilled(o, l, n - 1);
    }
  }

  ghost function SwapOutcome(o: Order, s: RouterState, l: Ledger, env: Env): Outcome<Flow, RouterError> {
    Execute(o.self, s, l, env, o.p, TestVenue(o.adapters))
  }

  lemma OutcomeForms(o: Order, s: RouterState, l: Ledger, env: Env)
    requires o.Valid() && Sound(l) && s.registry == o.registry && Preflight(s, l, env, o.p).Ok?
    ensures Moved(l, o.p.tokenIn, o.p.trader, o.self, o.p.amountIn).Some?
    ensures var start := Moved(l, o.p.tokenIn, o.p.trader, o.self, o.p.amountIn).value;
            var f := FlowAt(o.ToJob(), start, |o.p.path|);
            && Pulled(o, l, start)
            && SwapOutcome(o, s, l, env) ==
                 if s.nonce == U64_MAX then Err(Overflow)
                 else if f.Ok? && f.value.amounts[|o.p.path|] < o.p.amountOutMin then Err(InsufficientOutput)
                 else f
  {
    MovedEffect(l, o.p.tokenIn, o.p.trader, o.self, o.p.amountIn);
    assert o.ToJob() == Job(o.self, s.registry, o.p, TestVenue(o.adapters));
    hide FlowAt;
  }

  /** A swap over test adapters settles exactly when it is admissible, an execution id is left, every hop of the fold
      can be filled and the fold's last amount meets the minimum. */
  lemma SettlesIffFillable(o: Order, s: RouterState, l: Ledger, env: Env)
    requires o.Valid() && Sound(l) && s.registry == o.registry
    ensures SwapOutcome(o, s, l, env).Ok? <==>
            Admissible(s, l, env, o.p) && s.nonce < U64_MAX && o.Fillable(l) && o.p.amountOutMin <= o.Amount(|o.p.path|)
  {
    PreflightDecides(s, l, env, o.p);
    hide Admissible;
    if Preflight(s, l, env, o.p).Ok? {
      OutcomeForms(o, s, l, env);
      var start := Moved(l, o.p.tokenIn, o.p.trader, o.self, o.p.amountIn).value;
      FlowFills(o, l, start, |o.p.path|);
      hide Preflight, Moved, FlowAt, SwapOutcome, Order.Fills, Order.Price;
    }
  }

  ghost predicate StatesValid(o: Order) {
    forall a :: a in o.adapters ==> o.adapters[a].Valid()
  }

  /** With valid rates a hop is unpriced only through overflow. */
  lemma PricedUnlessOverflow(o: Order, k: nat)
    requires o.Valid() && StatesValid(o) && k < |o.p.path| && 0 < o.p.amountIn && o.Price(k).Some?
    ensures o.Price(k + 1).Some? <==> o.Amount(k) * o.Rates()[k].num <= I128_MAX
  {
    var rate := o.State(k).RateOf(o.p.path[k].pool);
    assert o.State(k).Valid();
    assert o.Rates()[k] == rate && 0 <= rate.num && 0 < rate.denom;
    assert o.Price(k + 1) == CheckedMulDiv(o.Amount(k), rate.num, rate.denom);
    assert 0 <= o.Amount(k) by {
      if k > 0 {
        var last := o.Rates()[k - 1];
        assert o.Price(k) == CheckedMulDiv(o.Amount(k - 1), last.num, last.denom);
      }
    }
  }

  lemma HopInRange(o: Order, l: Ledger, k: nat)
    requires o.Valid() && StatesValid(o) && k < |o.p.path| && 0 < o.p.amountIn && o.Price(k).Some?
    ensures o.Fills(l, k) <==> o.FillsInRange(l, k)
    ensures o.Fills(l, k) ==> o.Price(k + 1).Some?
  {
    PricedUnlessOverflow(o, k);
    hide Order.Covers, Order.Price, Order.Amount, Order.Rates;
  }

  lemma OneFurther(o: Order, l: Ledger, k: nat)
    requires o.Valid() && k < |o.p.path|
    ensures o.FillsTo(l, k + 1) <==> o.FillsTo(l, k) && o.Fills(l, k)
    ensures o.FillsInRangeTo(l, k + 1) <==> o.FillsInRangeTo(l, k) && o.FillsInRange(l, k)
  {
    hide Order.Fills, Order.FillsInRange;
  }

  lemma {:induction false} FillsIffInRange(o: Order, l: Ledger, k: nat)
    requires o.Valid() && StatesValid(o) && k <= |o.p.path| && 0 < o.p.amountIn
    ensures o.FillsTo(l, k) <==> o.FillsInRangeTo(l, k)
    ensures o.FillsTo(l, k) ==> o.Price(k).Some?
  {
    if k == 0 {
      assert o.Price(0).Some?;
    } else {
      FillsIffInRange(o, l, k - 1);
      hide Order.Fills, Order.FillsInRange, Order.Price, StatesValid, Order.FillsTo, Order.FillsInRangeTo;
      OneFurther(o, l, k - 1);
      if o.FillsTo(l, k - 1) {
        HopInRange(o, l, k - 1);
      }
    }
  }

  /** With valid rates, a swap over test adapters settles exactly when it is admissible, an execution id is left, every
      hop can be filled without overflow and the last amount meets the minimum. */
  lemma SettlesIffInRange(o: Order, s: RouterState, l: Ledger, env: Env)
    requires o.Valid() && StatesValid(o) && Sound(l) && s.registry == o.registry
    ensures SwapOutcome(o, s, l, env).Ok? <==>
            && Admissible(s, l, env, o.p) && s.nonce < U64_MAX
            && (forall k :: 0 <= k < |o.p.path| ==> o.FillsInRange(l, k))
            && o.p.amountOutMin <= o.Amount(|o.p.path|)
  {
    SettlesIffFillable(o, s, l, env);
    if Admissible(s, l, env, o.p) {
      FillsIffInRange(o, l, |o.p.path|);
    }
    hide SwapOutcome, Admissible, Order.Fills, Order.FillsInRange;
  }

  /** The first hop that cannot be filled is reached, and ends as given. */
  ghost predicate StopsAt(o: Order, l: Ledger, k: nat, end: Outcome<i128, RouterError>)
    requires o.Valid() && k < |o.p.path|
  {
    o.FillsTo(l, k) && o.Ends(l, k) == end
  }

  /** How an admissible swap over test adapters with an execution id left ends, decided by what is visible before the
      call: as its first hop that cannot be filled does, which is a trap when that hop's output token is not deployed,
      `SwapFailed` when its adapter cannot deliver what it reports, and `InsufficientOutput` when it delivers less than
      the minimum; when all are filled, by whether the last amount meets the swap's minimum. */
  lemma FailsAsFold(o: Order, s: RouterState, l: Ledger, env: Env)
    requires o.Valid() && Sound(l) && s.registry == o.registry && Admissible(s, l, env, o.p) && s.nonce < U64_MAX
    ensures var r, n := SwapOutcome(o, s, l, env), |o.p.path|;
            && (r.Ok? || r == Trap(NoSuchToken) || r == Err(SwapFailed) || r == Err(InsufficientOutput))
            && (r.Trap? <==> exists k :: 0 <= k < n && StopsAt(o, l, k, Trap(NoSuchToken)))
            && (r == Err(SwapFailed) <==> exists k :: 0 <= k < n && StopsAt(o, l, k, Err(SwapFailed)))
            && (r == Err(InsufficientOutput) <==>
                  || (exists k :: 0 <= k < n && StopsAt(o, l, k, Err(InsufficientOutput)))
                  || (o.Fillable(l) && o.Amount(n) < o.p.amountOutMin))
  {
    PreflightDecides(s, l, env, o.p);
    OutcomeForms(o, s, l, env);
    var n, start := |o.p.path|, Moved(l, o.p.tokenIn, o.p.trader, o.self, o.p.amountIn).value;
    FlowFills(o, l, start, n);
    hide Admissible, Preflight, Moved, SwapOutcome, FlowAt, Order.Fills, Order.Valid, Sound, Pulled;
    forall k, end | 0 <= k < n && StopsAt(o, l, k, end) && !end.Ok?
      ensures SwapOutcome(o, s, l, env) == end.PropagateFailure() && !o.Fillable(l)
    {
      EndsOk(o, l, k);
      FlowFails(o, l, start, k);
    }
    if !o.Fillable(l) {
      var k := FirstUnfilled(o, l, n);
      FlowFails(o, l, start, k);
      assert StopsAt(o, l, k, o.Ends(l, k));
    }
    hide StopsAt, Order.Fillable;
  }

  lemma EndsOk(o: Order, l: Ledger, k: nat)
    requires o.Valid() && k < |o.p.path|
    ensures o.Ends(l, k).Ok? <==> o.Fills(l, k)
  {
    hide Order.Net;
  }

  /** A swap over test adapters that settles does so for the fold's amounts, conserves every token's supply, and changes
      every balance by the fold's net change. */
  lemma SettlesAsFold(o: Order, s: RouterState, l: Ledger, env: Env, f: Flow)
    requires o.Valid() && Sound(l) && s.registry == o.registry && SwapOutcome(o, s, l, env) == Ok(f)
    ensures forall k :: 0 <= k <= |o.p.path| ==> o.Price(k) == Some(f.amounts[k])
    ensures Sound(f.ledger) && forall t :: Supply(f.ledger, t) == Supply(l, t)
    ensures forall t, h :: Balance(f.ledger, t, h) == Balance(l, t, h) + o.Net(|o.p.path|, t, h)
  {
    OutcomeForms(o, s, l, env);
    FlowFills(o, l, Moved(l, o.p.tokenIn, o.p.trader, o.self, o.p.amountIn).value, |o.p.path|);
    hide SwapOutcome, FlowAt, Moved, Sound, Supply, Order.Price, Order.Net, Balance;
    assert Matches(o, l, |o.p.path|, f);
  }

  /** What a settled swap pays stays within the accumulated rounding loss of the exact product of its rates. */
  lemma SettledWithinTruncation(o: Order, s: RouterState, l: Ledger, env: Env, f: Flow)
    requires o.Valid() && Sound(l) && s.registry == o.registry && SwapOutcome(o, s, l, env) == Ok(f)
    ensures var n, rates := |o.p.path|, o.Rates();
            o.p.amountIn * Nums(rates, 0, n) - RoundingLoss(rates, n, n)
            <= f.amounts[n] * Denoms(rates, n)
            <= o.p.amountIn * Nums(rates, 0, n)
  {
    SettlesAsFold(o, s, l, env, f);
    assert o.Price(|o.p.path|) == Some(f.amounts[|o.p.path|]);
    hide SwapOutcome;
    TruncationBound(o.p.amountIn, o.Rates(), |o.p.path|);
  }

  /** Test adapters meet what is assumed of untrusted ones, and are scoped for everyone who is not one of them. */
  lemma TestVenueScoped(adapters: map<Address, AdapterState>, who: Address)
    ensures Lawful(TestVenue(adapters))
    ensures who !in adapters ==> Scoped(TestVenue(adapters), who)
  {
    var venue := TestVenue(adapters);
    forall k, call, l | Sound(l) && venue(k, call, l).Accepted?
      ensures Sound(venue(k, call, l).after) && l.Keys <= venue(k, call, l).after.Keys
    {
      SwapDelivers(adapters[call.adapter], call, l);
    }
    forall k, call, l | who !in adapters && venue(k, call, l).Accepted?
      ensures Undebited(l, venue(k, call, l).after, who)
      ensures OnlyDelivers(l, venue(k, call, l).after, who, call)
    {
      var _ := ReplyMoves(adapters[call.adapter], call, l);
    }
  }

  lemma ReplyMoves(s: AdapterState, call: AdapterCall, l: Ledger) returns (out: nat)
    requires SwapReply(s, call, l).Accepted?
    ensures forall u, h :: Balance(SwapReply(s, call, l).after, u, h)
                        == Balance(l, u, h) + Change(call.tokenOut, call.adapter, call.recipient, out, u, h)
  {
    var rate := s.RateOf(call.pool);
    out := CheckedMulDiv(call.amountIn, rate.num, rate.denom).value;
    MovedBalances(l, call.tokenOut, call.adapter, call.recipient, out);
  }

  /** A trader may be the adapter of a hop that is not the last: here it fills the first hop of its own swap. The
      swap needs the trader's signature, which a plain test adapter has no way to give; it takes an adapter contract
      that prices and transfers like one and can also authorize the call. */
  lemma TraderFillsOwnHop() returns (o: Order, s: RouterState, l: Ledger, env: Env)
    ensures o.Valid() && s.registry == o.registry && |o.p.path| == 2 && o.Adapter(0) == o.p.trader
    ensures SwapOutcome(o, s, l, env).Ok?
  {
    var trader, other, a, b, c := Address(1), Address(2), Address(10), Address(11), Address(12);
    var registry := map["own" := trader, "other" := other];
    var up := AdapterState(Some(other), map[], map[], map[]);
    var path := [SwapStep("own", c, a, b, 0), SwapStep("other", c, b, c, 0)];
    var p := SwapParams(trader, a, c, 1, 1, 0, path);
    o := Order(Address(0), registry, map[trader := up, other := up], p);
    s := RouterState(Some(other), false, 0, registry, []);
    l := map[a := map[trader := 1], b := map[trader := 1], c := map[other := 1]];
    env := Env({trader}, 0, 0);
    SumPut(map[], trader, 1);
    SumPut(map[], other, 1);
    hide Sum;
    assert RouteOk(a, c, path);
    assert Admissible(s, l, env, p);
    assert o.Price(0) == Some(1);
    assert o.Price(1) == CheckedMulDiv(1, 1, 1) == Some(1);
    assert o.Price(2) == CheckedMulDiv(1, 1, 1);
    assert o.Fills(l, 0);
    assert o.Fills(l, 1);
    hide SwapOutcome, Order.Fills, Admissible;
    SettlesIffFillable(o, s, l, env);
  }

  /** A concrete swap that traps after funds have moved: its first hop is filled, its second hop's output token is not
      deployed. */
  lemma UndeployedSecondHopTraps() returns (o: Order, s: RouterState, l: Ledger, env: Env)
    ensures o.Valid() && s.registry == o.registry && Sound(l) && Admissible(s, l, env, o.p)
    ensures |o.p.path| == 2 && StopsAt(o, l, 1, Trap(NoSuchToken))
    ensures SwapOutcome(o, s, l, env) == Trap(NoSuchToken)
  {
    var trader, adapter, a, b, c := Address(1), Address(2), Address(10), Address(11), Address(12);
    var registry := map["test" := adapter];
    var path := [SwapStep("test", c, a, b, 0), SwapStep("test", c, b, c, 0)];
    var p := SwapParams(trader, a, c, 1, 1, 0, path);
    o := Order(Address(0), registry, map[adapter := AdapterState(Some(trader), map[], map[], map[])], p);
    s := RouterState(Some(adapter), false, 0, registry, []);
    l := map[a := map[trader := 1], b := map[adapter := 1]];
    env := Env({trader}, 0, 0);
    SumPut(map[], trader, 1);
    SumPut(map[], adapter, 1);
    hide Sum;
    assert RouteOk(a, c, path);
    assert Admissible(s, l, env, p);
    assert o.Price(0) == Some(1);
    assert o.Price(1) == CheckedMulDiv(1, 1, 1) == Some(1);
    assert o.Fills(l, 0);
    assert StopsAt(o, l, 1, Trap(NoSuchToken));
    hide SwapOutcome, Order.Fills, Admissible, StopsAt;
    FailsAsFold(o, s, l, env);
  }

  function States(deployed: map<Address, TestAdapter>): map<Address, AdapterState>
    reads deployed.Values
  {
    map a | a in deployed :: deployed[a].State()
  }

  /** Deployed test adapters answer a call as `TestVenue` says of their states, which the call leaves alone; the tokens
      are left as it says, or untouched by a call that fails. */
  method CallDeployed(deployed: map<Address, TestAdapter>, tokens: TokenLedger, k: nat, call: AdapterCall)
    returns (reply: AdapterReply)
    requires forall a :: a in deployed ==> deployed[a].self == a && deployed[a].tokens == tokens
    requires call.adapter in deployed
    modifies tokens
    ensures reply == TestVenue(old(States(deployed)))(k, call, old(tokens.books))
    ensures tokens.books == if reply.Accepted? then reply.after else old(tokens.books)
    ensures States(deployed) == old(States(deployed))
  {
    var r := deployed[call.adapter].Swap(call);
    reply := if r.Ok? then Accepted(r.value, tokens.books) else Refused;
  }

  /** A `swap` transaction of the router over adapters that answer as the deployed ones do (`CallDeployed`) succeeds
      exactly when the fold can be filled without overflow; it then answers the fold's last amount, records the fold's
      amounts, and changes every balance by the fold's net change. Otherwise everything is as it was. */
  method SwapOverTestAdapters(router: Router, env: Env, deployed: map<Address, TestAdapter>, p: SwapParams)
    returns (r: Outcome<i128, RouterError>)
    requires forall a :: a in deployed ==> deployed[a].State().Valid()
    requires Order(router.self, router.registry, States(deployed), p).Valid() && Sound(router.tokens.books)
    modifies router, router.tokens
    ensures var o, l := Order(router.self, old(router.registry), old(States(deployed)), p), old(router.tokens.books);
            && (r.Ok? <==> && Admissible(old(router.State()), l, env, p) && old(router.nonce) < U64_MAX
                           && (forall k :: 0 <= k < |p.path| ==> o.FillsInRange(l, k))
                           && p.amountOutMin <= o.Amount(|p.path|))
            && (r.Ok? ==>
                  && r.value == o.Amount(|p.path|)
                  && router.State() == Settled(old(router.State()), env, p, o.Amounts())
                  && forall t, h :: Balance(router.tokens.books, t, h) == Balance(l, t, h) + o.Net(|p.path|, t, h))
            && (!r.Ok? ==> router.Now() == old(router.Now()))
  {
    var states := States(deployed);
    ghost var o, s, l := Order(router.self, router.registry, states, p), router.State(), router.tokens.books;
    SettlesIffInRange(o, s, l, env);
    if SwapOutcome(o, s, l, env).Ok? {
      var f := SwapOutcome(o, s, l, env).value;
      SettlesAsFold(o, s, l, env, f);
      assert f.amounts == o.Amounts() by {
        assert forall k :: 0 <= k <= |p.path| ==> o.Price(k) == Some(f.amounts[k]);
      }
    }
    hide Execute, Admissible, Sound, Order.FillsInRange, Order.Net, Order.Price, Order.Amounts, Settled;
    r := router.SwapTransaction(env, p, TestVenue(states));
  }
}
