/** What a swap does, as a function of the router's storage, the ledger and the adapters' behaviour. */
module Routing {
  import opened Machine
  import opened Tokens
  import opened Interfaces

  datatype RouterState = RouterState(
    admin: Option<Address>, paused: bool, nonce: u64,
    registry: map<Symbol, Address>, log: seq<RouterEvent>)

  // ---- Route shape -----------------------------------------------------------

  /** The token that step k has to consume; for k == |path|, the token the route ends in. */
  function TokenBefore(tokenIn: Address, path: seq<SwapStep>, k: nat): Address
    requires k <= |path|
  {
    if k == 0 then tokenIn else path[k - 1].tokenOut
  }

  ghost predicate Linked(tokenIn: Address, path: seq<SwapStep>, k: nat)
    requires k < |path|
  {
    path[k].tokenIn == TokenBefore(tokenIn, path, k)
  }

  ghost predicate StepOk(tokenIn: Address, path: seq<SwapStep>, k: nat)
    requires k < |path|
  {
    Linked(tokenIn, path, k) && 0 <= path[k].amountOutMin
  }

  ghost predicate StepsOk(tokenIn: Address, path: seq<SwapStep>, n: nat)
    requires n <= |path|
  {
    forall k :: 0 <= k < n ==> StepOk(tokenIn, path, k)
  }

  ghost predicate FirstFault(tokenIn: Address, path: seq<SwapStep>, k: nat) {
    k < |path| && !StepOk(tokenIn, path, k) && StepsOk(tokenIn, path, k)
  }

  /** The steps chain from `tokenIn` to `tokenOut` and ask for no negative minimum. */
  ghost predicate RouteOk(tokenIn: Address, tokenOut: Address, path: seq<SwapStep>) {
    StepsOk(tokenIn, path, |path|) && TokenBefore(tokenIn, path, |path|) == tokenOut
  }

  /** The verdict on a route is that of its earliest fault. */
  ghost function RouteVerdict(tokenIn: Address, tokenOut: Address, path: seq<SwapStep>): Outcome<(), RouterError> {
    if RouteOk(tokenIn, tokenOut, path) then Ok(())
    else if exists k :: FirstFault(tokenIn, path, k) && Linked(tokenIn, path, k) then Err(InvalidMinOut)
    else Err(DiscontinuousPath)
  }

  /** Walks the route with a cursor on the token held. */
  method ValidatePath(tokenIn: Address, tokenOut: Address, path: seq<SwapStep>)
    returns (r: Outcome<(), RouterError>)
    ensures r == RouteVerdict(tokenIn, tokenOut, path)
    ensures r.Ok? <==> RouteOk(tokenIn, tokenOut, path)
    ensures r == Err(InvalidMinOut) <==>
            exists k :: FirstFault(tokenIn, path, k) && Linked(tokenIn, path, k)
    ensures r == Err(DiscontinuousPath) <==>
            || (exists k :: FirstFault(tokenIn, path, k) && !Linked(tokenIn, path, k))
            || (StepsOk(tokenIn, path, |path|) && TokenBefore(tokenIn, path, |path|) != tokenOut)
  {
    var cursor := tokenIn;
    for i := 0 to |path|
      invariant cursor == TokenBefore(tokenIn, path, i)
      invariant StepsOk(tokenIn, path, i)
    {
      var step := path[i];
      if step.tokenIn != cursor {
        assert FirstFault(tokenIn, path, i) && !Linked(tokenIn, path, i);
        return Err(DiscontinuousPath);
      }
      if step.amountOutMin < 0 {
        assert FirstFault(tokenIn, path, i) && Linked(tokenIn, path, i);
        return Err(InvalidMinOut);
      }
      cursor := step.tokenOut;
    }
    if cursor != tokenOut {
      return Err(DiscontinuousPath);
    }
    return Ok(());
  }

  // ---- One swap ----------------------------------------------------------------

  ghost predicate Registered(registry: map<Symbol, Address>, path: seq<SwapStep>, n: nat)
    requires n <= |path|
  {
    forall k :: 0 <= k < n ==> path[k].protocol in registry
  }

  /** Everything that is checked before funds move. */
  ghost function Preflight(s: RouterState, l: Ledger, env: Env, p: SwapParams): Outcome<(), RouterError> {
    if s.admin.None? then Err(NotInitialized)
    else if s.paused then Err(RouterError.Paused)
    else if p.trader !in env.signers then Trap(Unauthorized)
    else if p.amountIn <= 0 then Err(ZeroAmount)
    else if p.amountOutMin <= 0 then Err(InvalidMinOut)
    else if env.timestamp > p.deadline then Err(Expired)
    else if |p.path| == 0 then Err(EmptyPath)
    else if |p.path| > MAX_HOPS then Err(TooManyHops)
    else if !RouteVerdict(p.tokenIn, p.tokenOut, p.path).Ok? then RouteVerdict(p.tokenIn, p.tokenOut, p.path)
    else if !Registered(s.registry, p.path, |p.path|) then Err(ProtocolNotFound)
    else if p.tokenIn !in l then Trap(NoSuchToken)
    else if Balance(l, p.tokenIn, p.trader) < p.amountIn then Err(InsufficientBalance)
    else Ok(())
  }

  /** What has to hold for a swap to move any funds. */
  ghost predicate Admissible(s: RouterState, l: Ledger, env: Env, p: SwapParams) {
    && s.admin.Some? && !s.paused && p.trader in env.signers
    && 0 < p.amountIn && 0 < p.amountOutMin && env.timestamp <= p.deadline
    && 1 <= |p.path| <= MAX_HOPS && RouteOk(p.tokenIn, p.tokenOut, p.path)
    && Registered(s.registry, p.path, |p.path|)
    && p.tokenIn in l && p.amountIn <= Balance(l, p.tokenIn, p.trader)
  }

  lemma PreflightDecides(s: RouterState, l: Ledger, env: Env, p: SwapParams)
    ensures Preflight(s, l, env, p).Ok? <==> Admissible(s, l, env, p)
  {
  }

  /** The fixed surroundings of one swap's hops. */
  datatype Job = Job(self: Address, registry: map<Symbol, Address>, p: SwapParams, venue: Venue) {
    function Recipient(k: nat): Address {
      if k + 1 == |p.path| then p.trader else self
    }

    function CallOf(k: nat, amountIn: i128): AdapterCall
      requires k < |p.path| && p.path[k].protocol in registry
    {
      var step := p.path[k];
      AdapterCall(registry[step.protocol], step.pool, step.tokenIn, step.tokenOut,
                  amountIn, step.amountOutMin, Recipient(k))
    }
  }

  /** The verified amounts so far, starting with the swap's input, and the ledger. */
  datatype Flow = Flow(amounts: seq<i128>, ledger: Ledger)

  /** The verdict on an adapter's reply: only what the recipient's balance gained counts. */
  ghost function Verified(step: SwapStep, recipient: Address, before: Ledger, reply: AdapterReply)
    : Outcome<i128, RouterError>
  {
    if reply.Refused? || reply.reported <= 0 then Err(SwapFailed)
    else if step.tokenOut !in reply.after then Trap(NoSuchToken)
    else
      var delivered := Balance(reply.after, step.tokenOut, recipient) - Balance(before, step.tokenOut, recipient);
      if !(I128_MIN <= delivered <= I128_MAX) || delivered < reply.reported then Err(SwapFailed)
      else if delivered < step.amountOutMin then Err(InsufficientOutput)
      else Ok(delivered)
  }

  ghost function Hop(job: Job, k: nat, f: Flow): (r: Outcome<Flow, RouterError>)
    requires k < |job.p.path| && |f.amounts| == k + 1
    ensures r.Ok? ==> |r.value.amounts| == k + 2
  {
    var step := job.p.path[k];
    if step.protocol !in job.registry then Err(ProtocolNotFound) else
    var call := job.CallOf(k, f.amounts[k]);
    var forwarded := Moved(f.ledger, step.tokenIn, job.self, call.adapter, f.amounts[k]);
    if forwarded.None? then Trap(TransferRefused)
    else if step.tokenOut !in forwarded.value then Trap(NoSuchToken)
    else
      var reply := job.venue(k, call, forwarded.value);
      var out :- Verified(step, call.recipient, forwarded.value, reply);
      Ok(Flow(f.amounts + [out], reply.after))
  }

  /** The state reached before hop k, or the failure of an earlier hop. */
  ghost function FlowAt(job: Job, start: Ledger, k: nat): (r: Outcome<Flow, RouterError>)
    requires k <= |job.p.path|
    ensures r.Ok? ==> |r.value.amounts| == k + 1
  {
    if k == 0 then Ok(Flow([job.p.amountIn], start)) else
    var f :- FlowAt(job, start, k - 1);
    Hop(job, k - 1, f)
  }

  /** A failed hop fails the swap. */
  lemma {:induction false} FailureSticks(job: Job, start: Ledger, j: nat, k: nat)
    requires j <= k <= |job.p.path|
    ensures !FlowAt(job, start, j).Ok? ==> FlowAt(job, start, k) == FlowAt(job, start, j)
    decreases k
  {
    if j < k {
      FailureSticks(job, start, j, k - 1);
    }
  }

  ghost function Execute(self: Address, s: RouterState, l: Ledger, env: Env, p: SwapParams, venue: Venue)
    : (r: Outcome<Flow, RouterError>)
    ensures r.Ok? ==> |r.value.amounts| == |p.path| + 1 && p.path != [] && s.nonce < U64_MAX && s.admin.Some?
  {
    var _ :- Preflight(s, l, env, p);
    var pulled := Moved(l, p.tokenIn, p.trader, self, p.amountIn);
    if pulled.None? then Trap(TransferRefused)
    else if s.nonce == U64_MAX then Err(Overflow)
    else
      var f :- FlowAt(Job(self, s.registry, p, venue), pulled.value, |p.path|);
      if f.amounts[|p.path|] < p.amountOutMin then Err(InsufficientOutput) else Ok(f)
  }

  // ---- Records of a swap -------------------------------------------------------

  function HopRecord(id: u64, p: SwapParams, amounts: seq<i128>, k: nat): RouterEvent
    requires k < |p.path| && k + 1 < |amounts|
  {
    var step := p.path[k];
    HopExecuted(id, p.trader, k, step.protocol, step.pool, step.tokenIn, step.tokenOut,
                amounts[k], amounts[k + 1], EVENT_SCHEMA_VERSION)
  }

  /** Records of the first n hops. */
  function HopRecords(id: u64, p: SwapParams, amounts: seq<i128>, n: nat): seq<RouterEvent>
    requires n <= |p.path| && n < |amounts|
  {
    if n == 0 then [] else HopRecords(id, p, amounts, n - 1) + [HopRecord(id, p, amounts, n - 1)]
  }

  /** The first n records depend on the first n + 1 amounts only. */
  lemma {:induction false} HopRecordsPrefix(id: u64, p: SwapParams, a: seq<i128>, b: seq<i128>, n: nat)
    requires n <= |p.path| && n < |a| && a <= b
    ensures HopRecords(id, p, a, n) == HopRecords(id, p, b, n)
  {
    if n > 0 {
      HopRecordsPrefix(id, p, a, b, n - 1);
    }
  }

  /** Protocol ids of the first n steps. */
  function Protocols(path: seq<SwapStep>, n: nat): (r: seq<Symbol>)
    requires n <= |path|
    ensures |r| == n
  {
    if n == 0 then [] else Protocols(path, n - 1) + [path[n - 1].protocol]
  }

  function Summary(id: u64, env: Env, p: SwapParams, amounts: seq<i128>): RouterEvent
    requires |amounts| == |p.path| + 1
  {
    SwapExecuted(p.trader, p.tokenIn, p.tokenOut, p.amountIn, amounts[|p.path|],
                 Protocols(p.path, |p.path|), id, env.sequence, EVENT_SCHEMA_VERSION)
  }

  /** A swap's events: its hop records in order, then the summary. */
  function Block(id: u64, env: Env, p: SwapParams, amounts: seq<i128>): seq<RouterEvent>
    requires |amounts| == |p.path| + 1
  {
    HopRecords(id, p, amounts, |p.path|) + [Summary(id, env, p, amounts)]
  }

  /** Storage after a swap that settled: one more execution id and one more block. */
  function Settled(s: RouterState, env: Env, p: SwapParams, amounts: seq<i128>): RouterState
    requires s.nonce < U64_MAX && |amounts| == |p.path| + 1
  {
    s.(nonce := s.nonce + 1, log := s.log + Block(s.nonce + 1, env, p, amounts))
  }
}
