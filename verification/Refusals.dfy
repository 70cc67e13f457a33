/** Which requests `swap` refuses before any funds move, and with which error. */
module Refusals {
  import opened Machine
  import opened Tokens
  import opened Interfaces
  import opened Routing

  /** The token at hand before step k of the route. */
  ghost function Held(p: SwapParams, k: nat): Address
    requires k <= |p.path|
  {
    if k == 0 then p.tokenIn else p.path[k - 1].tokenOut
  }

  /** The first k steps each take the token at hand and ask for no negative minimum. */
  ghost predicate FineUpTo(p: SwapParams, k: nat)
    requires k <= |p.path|
  {
    forall j :: 0 <= j < k ==> p.path[j].tokenIn == Held(p, j) && 0 <= p.path[j].amountOutMin
  }

  /** The earliest fault of the route is a step that takes another token than the one at hand, or that the route ends
      in another token than the one asked for. */
  ghost predicate Broken(p: SwapParams) {
    || (exists k :: 0 <= k < |p.path| && FineUpTo(p, k) && p.path[k].tokenIn != Held(p, k))
    || (FineUpTo(p, |p.path|) && Held(p, |p.path|) != p.tokenOut)
  }

  /** The earliest fault of the route is a negative minimum. */
  ghost predicate AsksNegative(p: SwapParams) {
    exists k :: 0 <= k < |p.path| && FineUpTo(p, k) && p.path[k].tokenIn == Held(p, k) && p.path[k].amountOutMin < 0
  }

  lemma RouteFaults(p: SwapParams)
    ensures var r := RouteVerdict(p.tokenIn, p.tokenOut, p.path);
            && (r == Err(DiscontinuousPath) <==> Broken(p))
            && (r == Err(InvalidMinOut) <==> AsksNegative(p))
            && (r.Ok? <==> !Broken(p) && !AsksNegative(p))
            && (r.Ok? || r == Err(DiscontinuousPath) || r == Err(InvalidMinOut))
  {
    assert forall k :: 0 <= k <= |p.path| ==> Held(p, k) == TokenBefore(p.tokenIn, p.path, k);
    assert forall k :: 0 <= k <= |p.path| ==> (FineUpTo(p, k) <==> StepsOk(p.tokenIn, p.path, k)) by {
      assert forall j :: 0 <= j < |p.path| ==>
        (StepOk(p.tokenIn, p.path, j) <==> p.path[j].tokenIn == Held(p, j) && 0 <= p.path[j].amountOutMin);
    }
    if !StepsOk(p.tokenIn, p.path, |p.path|) {
      var k := FirstFaulty(p, |p.path|);
    }
  }

  lemma {:induction false} FirstFaulty(p: SwapParams, n: nat) returns (k: nat)
    requires n <= |p.path| && !StepsOk(p.tokenIn, p.path, n)
    ensures k < n && FirstFault(p.tokenIn, p.path, k)
  {
    if StepsOk(p.tokenIn, p.path, n - 1) {
      k := n - 1;
    } else {
      k := FirstFaulty(p, n - 1);
    }
  }

  /** With every step registered, the hop loop fails in one of four ways, none of them an error of the checks. */
  lemma {:induction false} LoopCodes(job: Job, start: Ledger, k: nat)
    requires k <= |job.p.path| && Registered(job.registry, job.p.path, |job.p.path|)
    ensures var r := FlowAt(job, start, k);
            r.Ok? || r in {Trap(TransferRefused), Trap(NoSuchToken), Err(SwapFailed), Err(InsufficientOutput)}
  {
    if k > 0 {
      LoopCodes(job, start, k - 1);
    }
  }

  /** Exactly which requests answer each error of the checks, whatever the adapters do: the error of the first thing
      that is wrong, in the order below. No hop answers any of these errors. */
  lemma RefusalCodes(self: Address, s: RouterState, l: Ledger, env: Env, p: SwapParams, venue: Venue)
    ensures var r := Execute(self, s, l, env, p, venue);
            var live := s.admin.Some? && !s.paused;
            var signed := live && p.trader in env.signers;
            var positive := signed && 0 < p.amountIn;
            var bounded := positive && 0 < p.amountOutMin;
            var timely := bounded && env.timestamp <= p.deadline;
            var sized := timely && 1 <= |p.path| <= MAX_HOPS;
            var chained := sized && !Broken(p) && !AsksNegative(p);
            var resolved := chained && forall k :: 0 <= k < |p.path| ==> p.path[k].protocol in s.registry;
            && (r == Err(NotInitialized) <==> s.admin.None?)
            && (r == Err(RouterError.Paused) <==> s.admin.Some? && s.paused)
            && (r == Trap(Unauthorized) <==> live && p.trader !in env.signers)
            && (r == Err(ZeroAmount) <==> signed && p.amountIn <= 0)
            && (r == Err(InvalidMinOut) <==> (positive && p.amountOutMin <= 0) || (sized && AsksNegative(p)))
            && (r == Err(Expired) <==> bounded && p.deadline < env.timestamp)
            && (r == Err(EmptyPath) <==> timely && p.path == [])
            && (r == Err(TooManyHops) <==> timely && |p.path| > MAX_HOPS)
            && (r == Err(DiscontinuousPath) <==> sized && Broken(p))
            && (r == Err(ProtocolNotFound) <==> chained && !resolved)
            && (r == Err(InsufficientBalance) <==>
                  resolved && p.tokenIn in l && Balance(l, p.tokenIn, p.trader) < p.amountIn)
            && (resolved && p.tokenIn !in l ==> r == Trap(NoSuchToken))
            && r !in {Err(AlreadyInitialized), Err(NotAuthorized), Err(InvalidAdmin)}
  {
    RouteFaults(p);
    var pulled := Moved(l, p.tokenIn, p.trader, self, p.amountIn);
    if Registered(s.registry, p.path, |p.path|) && pulled.Some? {
      LoopCodes(Job(self, s.registry, p, venue), pulled.value, |p.path|);
    }
    hide Broken, AsksNegative, RouteVerdict, FlowAt, Moved, Balance;
  }
}
