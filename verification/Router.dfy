/** The router contract: storage fields, management entry points, and the hop loop of `swap`. */
module Router {
  import opened Machine
  import opened Tokens
  import opened Interfaces
  import opened Routing
  import opened RouterSteps

  type Reply = Outcome<(), RouterError>

  class Router {
    const self: Address
    const tokens: TokenLedger
    var admin: Option<Address>
    var paused: bool
    var nonce: u64
    var registry: map<Symbol, Address>
    var log: seq<RouterEvent>

    ghost function State(): RouterState
      reads this
    {
      RouterState(admin, paused, nonce, registry, log)
    }

    ghost function Now(): World
      reads this, tokens
    {
      World(State(), tokens.books)
    }

    constructor (self: Address, tokens: TokenLedger)
      ensures this.self == self && this.tokens == tokens
      ensures State() == FRESH
    {
      this.self, this.tokens := self, tokens;
      admin, paused, nonce, registry, log := None, false, 0, map[], [];
    }

    // ---- Management ------------------------------------------------------------

    /** A management call answers as `Managed` says and writes storage only when it succeeds. */
    ghost predicate Manages(before: RouterState, env: Env, a: Action, r: Reply)
      requires !a.Swap? && !a.Elsewhere?
      reads this
    {
      match Managed(before, env, a)
      case Ok(s) => r == Ok(()) && State() == s
      case Err(e) => r == Err(e) && State() == before
      case Trap(c) => r == Trap(c) && State() == before
    }

    method Initialize(env: Env, newAdmin: Address) returns (r: Reply)
      modifies this
      ensures Manages(old(State()), env, Action.Initialize(newAdmin), r)
      ensures r == if old(admin).Some? then Err(AlreadyInitialized) else Ok(())
      ensures r.Ok? ==> admin == Some(newAdmin) && !paused && nonce == 0 && registry == old(registry)
                        && log == old(log) + [Initialized(newAdmin, EVENT_SCHEMA_VERSION)]
    {
      if admin.Some? {
        return Err(AlreadyInitialized);
      }
      admin, paused, nonce := Some(newAdmin), false, 0;
      log := log + [Initialized(newAdmin, EVENT_SCHEMA_VERSION)];
      return Ok(());
    }

    /** The stored admin, whose signature the call must carry. */
    method RequireAdmin(env: Env) returns (r: Outcome<Address, RouterError>)
      ensures r == if admin.None? then Err(NotInitialized)
                   else if admin.value !in env.signers then Trap(Unauthorized) else Ok(admin.value)
    {
      if admin.None? {
        return Err(NotInitialized);
      }
      if admin.value !in env.signers {
        return Trap(Unauthorized);
      }
      return Ok(admin.value);
    }

    method SetAdmin(env: Env, newAdmin: Address) returns (r: Reply)
      modifies this
      ensures Manages(old(State()), env, Action.SetAdmin(newAdmin), r)
      ensures r.Ok? <==> old(admin).Some? && old(admin).value in env.signers && newAdmin != old(admin).value
      ensures r.Ok? ==>
                State() == old(State()).(
                  admin := Some(newAdmin),
                  log := old(log) + [AdminChanged(old(admin).value, newAdmin, EVENT_SCHEMA_VERSION)])
    {
      var oldAdmin :- RequireAdmin(env);
      if newAdmin == oldAdmin {
        return Err(InvalidAdmin);
      }
      admin := Some(newAdmin);
      log := log + [AdminChanged(oldAdmin, newAdmin, EVENT_SCHEMA_VERSION)];
      return Ok(());
    }

    method SetPaused(env: Env, paused: bool) returns (r: Reply)
      modifies this
      ensures Manages(old(State()), env, Action.SetPaused(paused), r)
      ensures r.Ok? <==> old(admin).Some? && old(admin).value in env.signers
      ensures r.Ok? ==>
                State() == old(State()).(
                  paused := paused,
                  log := old(log) + [PauseChanged(old(admin).value, paused, EVENT_SCHEMA_VERSION)])
    {
      var current :- RequireAdmin(env);
      this.paused := paused;
      log := log + [PauseChanged(current, paused, EVENT_SCHEMA_VERSION)];
      return Ok(());
    }

    method SetProtocol(env: Env, protocol: Symbol, adapter: Address) returns (r: Reply)
      modifies this
      ensures Manages(old(State()), env, Action.SetProtocol(protocol, adapter), r)
      ensures r.Ok? <==> old(admin).Some? && old(admin).value in env.signers
      ensures r.Ok? ==>
                State() == old(State()).(
                  registry := old(registry)[protocol := adapter],
                  log := old(log) + [ProtocolSet(protocol, adapter, EVENT_SCHEMA_VERSION)])
    {
      var _ :- RequireAdmin(env);
      registry := registry[protocol := adapter];
      log := log + [ProtocolSet(protocol, adapter, EVENT_SCHEMA_VERSION)];
      return Ok(());
    }

    method RemoveProtocol(env: Env, protocol: Symbol) returns (r: Reply)
      modifies this
      ensures Manages(old(State()), env, Action.RemoveProtocol(protocol), r)
      ensures r.Ok? <==> old(admin).Some? && old(admin).value in env.signers && protocol in old(registry)
      ensures r.Ok? ==>
                State() == old(State()).(
                  registry := old(registry) - {protocol},
                  log := old(log) + [ProtocolRemoved(protocol, EVENT_SCHEMA_VERSION)])
    {
      var _ :- RequireAdmin(env);
      if protocol !in registry {
        return Err(ProtocolNotFound);
      }
      registry := registry - {protocol};
      log := log + [ProtocolRemoved(protocol, EVENT_SCHEMA_VERSION)];
      return Ok(());
    }

    method Upgrade(env: Env, wasmHash: seq<bv8>) returns (r: Reply)
      modifies this
      ensures Manages(old(State()), env, Action.Upgrade(wasmHash), r)
      ensures r.Ok? <==> old(admin).Some? && old(admin).value in env.signers
      ensures r.Ok? ==>
                State() == old(State()).(log := old(log) + [Upgraded(old(admin).value, wasmHash, EVENT_SCHEMA_VERSION)])
    {
      var current :- RequireAdmin(env);
      log := log + [Upgraded(current, wasmHash, EVENT_SCHEMA_VERSION)];
      return Ok(());
    }

    // ---- Swap --------------------------------------------------------------------

    /** Allocates the next execution id. */
    method NextNonce() returns (r: Outcome<u64, RouterError>)
      modifies this`nonce
      ensures r == if admin.None? then Err(NotInitialized)
                   else if old(nonce) == U64_MAX then Err(Overflow) else Ok(old(nonce) + 1)
      ensures nonce == if r.Ok? then r.value else old(nonce)
    {
      if admin.None? {
        return Err(NotInitialized);
      }
      if nonce + 1 > U64_MAX {
        return Err(Overflow);
      }
      nonce := nonce + 1;
      return Ok(nonce);
    }

    /** The checks made before funds move. */
    method Check(env: Env, p: SwapParams) returns (r: Reply)
      ensures r == Preflight(State(), tokens.books, env, p)
    {
      if admin.None? {
        return Err(NotInitialized);
      }
      if paused {
        return Err(RouterError.Paused);
      }
      if p.trader !in env.signers {
        return Trap(Unauthorized);
      }
      if p.amountIn <= 0 {
        return Err(ZeroAmount);
      }
      if p.amountOutMin <= 0 {
        return Err(InvalidMinOut);
      }
      if env.timestamp > p.deadline {
        return Err(Expired);
      }
      if |p.path| == 0 {
        return Err(EmptyPath);
      }
      if |p.path| > MAX_HOPS {
        return Err(TooManyHops);
      }
      var _ :- ValidatePath(p.tokenIn, p.tokenOut, p.path);
      for i := 0 to |p.path|
        invariant Registered(registry, p.path, i)
      {
        if p.path[i].protocol !in registry {
          return Err(ProtocolNotFound);
        }
      }
      var held := tokens.GetBalance(p.tokenIn, p.trader);
      if held.None? {
        return Trap(NoSuchToken);
      }
      if held.value < p.amountIn {
        return Err(InsufficientBalance);
      }
      return Ok(());
    }

    /** One iteration of the hop loop: forwards the input, calls the adapter, and answers with
        what the recipient's balance gained. */
    method RunHop(p: SwapParams, i: nat, hopAmountIn: i128, venue: Venue,
                  ghost start: Ledger, ghost amounts: seq<i128>)
      returns (r: Outcome<i128, RouterError>)
      requires i < |p.path| && |amounts| == i + 1 && amounts[i] == hopAmountIn
      requires FlowAt(Job(self, registry, p, venue), start, i) == Ok(Flow(amounts, tokens.books))
      modifies tokens
      ensures r.Ok? ==>
                FlowAt(Job(self, registry, p, venue), start, i + 1) == Ok(Flow(amounts + [r.value], tokens.books))
      ensures !r.Ok? ==> FlowAt(Job(self, registry, p, venue), start, |p.path|) == r.PropagateFailure()
    {
      hide FlowAt;
      FlowStep(Job(self, registry, p, venue), start, i, Flow(amounts, tokens.books));
      var step := p.path[i];
      if step.protocol !in registry {
        return Err(ProtocolNotFound);
      }
      var adapter := registry[step.protocol];
      var forwarded := tokens.Transfer(step.tokenIn, self, adapter, hopAmountIn);
      if !forwarded {
        return Trap(TransferRefused);
      }
      var recipient := if i + 1 == |p.path| then p.trader else self;
      var before := tokens.GetBalance(step.tokenOut, recipient);
      if before.None? {
        return Trap(NoSuchToken);
      }
      var call := AdapterCall(adapter, step.pool, step.tokenIn, step.tokenOut,
                              hopAmountIn, step.amountOutMin, recipient);
      var reply := venue(i, call, tokens.books);
      if reply.Refused? {
        return Err(SwapFailed);
      }
      tokens.books := reply.after;
      if reply.reported <= 0 {
        return Err(SwapFailed);
      }
      var held := tokens.GetBalance(step.tokenOut, recipient);
      if held.None? {
        return Trap(NoSuchToken);
      }
      var delivered := held.value - before.value;
      if !(I128_MIN <= delivered <= I128_MAX) || delivered < reply.reported {
        return Err(SwapFailed);
      }
      if delivered < step.amountOutMin {
        return Err(InsufficientOutput);
      }
      return Ok(delivered);
    }

    /** The hop loop: chains the verified amounts along the path and records every hop. */
    method RunHops(p: SwapParams, executionId: u64, venue: Venue)
      returns (r: Outcome<(i128, seq<Symbol>), RouterError>)
      modifies `log, tokens
      ensures match FlowAt(Job(self, registry, p, venue), old(tokens.books), |p.path|)
              case Ok(f) => r == Ok((f.amounts[|p.path|], Protocols(p.path, |p.path|))) && tokens.books == f.ledger
                            && log == old(log) + HopRecords(executionId, p, f.amounts, |p.path|)
              case Err(e) => r == Err(e)
              case Trap(c) => r == Trap(c)
    {
      hide Hop, FlowAt;
      ghost var job := Job(self, registry, p, venue);
      ghost var start := tokens.books;
      ghost var amounts: seq<i128> := [p.amountIn];
      FlowStart(job, start);
      var hops := |p.path|;
      var protocols: seq<Symbol> := [];
      var hopAmountIn := p.amountIn;
      ghost var records: seq<RouterEvent> := [];
      for i := 0 to hops
        invariant FlowAt(job, start, i) == Ok(Flow(amounts, tokens.books))
        invariant |amounts| == i + 1 && amounts[i] == hopAmountIn
        invariant log == old(log) + records && records == HopRecords(executionId, p, amounts, i)
        invariant protocols == Protocols(p.path, i)
      {
        var step := p.path[i];
        var delivered :- RunHop(p, i, hopAmountIn, venue, start, amounts);
        var record := HopExecuted(executionId, p.trader, i, step.protocol, step.pool, step.tokenIn, step.tokenOut,
                                  hopAmountIn, delivered, EVENT_SCHEMA_VERSION);
        AppendAssociates(old(log), records, record);
        log := log + [record];
        HopRecordsGrow(executionId, p, amounts, delivered, i, record);
        records := records + [record];
        protocols := protocols + [step.protocol];
        hopAmountIn := delivered;
        amounts := amounts + [delivered];
      }
      return Ok((hopAmountIn, protocols));
    }

    static lemma AppendAssociates(a: seq<RouterEvent>, b: seq<RouterEvent>, e: RouterEvent)
      ensures a + b + [e] == a + (b + [e])
    {
    }

    static lemma HopRecordsGrow(id: u64, p: SwapParams, amounts: seq<i128>, out: i128, i: nat, e: RouterEvent)
      requires i < |p.path| && |amounts| == i + 1 && e == HopRecord(id, p, amounts + [out], i)
      ensures HopRecords(id, p, amounts + [out], i + 1) == HopRecords(id, p, amounts, i) + [e]
    {
      HopRecordsPrefix(id, p, amounts, amounts + [out], i);
    }

    /** The body of `swap`: on success storage and ledger are those of `Execute`;
        otherwise the error is, and the caller undoes whatever was written. */
    method Swap(env: Env, p: SwapParams, venue: Venue) returns (r: Outcome<i128, RouterError>)
      modifies this, tokens
      ensures match Execute(self, old(State()), old(tokens.books), env, p, venue)
              case Ok(f) => r == Ok(f.amounts[|p.path|])
                            && State() == Settled(old(State()), env, p, f.amounts) && tokens.books == f.ledger
              case Err(e) => r == Err(e)
              case Trap(c) => r == Trap(c)
    {
      var _ :- Check(env, p);
      var pulled := tokens.Transfer(p.tokenIn, p.trader, self, p.amountIn);
      if !pulled {
        return Trap(TransferRefused);
      }
      var executionId :- NextNonce();

      var done :- RunHops(p, executionId, venue);
      var (amountOut, protocols) := done;
      if amountOut < p.amountOutMin {
        return Err(InsufficientOutput);
      }
      ghost var records := log[|old(log)|..];
      var summary := SwapExecuted(p.trader, p.tokenIn, p.tokenOut, p.amountIn, amountOut, protocols,
                                  executionId, env.sequence, EVENT_SCHEMA_VERSION);
      AppendAssociates(old(log), records, summary);
      log := log + [summary];
      return Ok(amountOut);
    }

    static lemma FlowStart(job: Job, start: Ledger)
      ensures FlowAt(job, start, 0) == Ok(Flow([job.p.amountIn], start))
    {
    }

    /** Each hop runs from where the one before it ended, and a failed hop fails the swap. */
    static lemma FlowStep(job: Job, start: Ledger, i: nat, f: Flow)
      requires i < |job.p.path| && FlowAt(job, start, i) == Ok(f)
      ensures FlowAt(job, start, i + 1) == Hop(job, i, f)
      ensures !Hop(job, i, f).Ok? ==> FlowAt(job, start, |job.p.path|) == Hop(job, i, f)
    {
      FailureSticks(job, start, i + 1, |job.p.path|);
    }

    // ---- Transactions --------------------------------------------------------------

    /** A swap as a transaction: storage, events and ledger are restored unless it succeeds. */
    method SwapTransaction(env: Env, p: SwapParams, venue: Venue) returns (r: Outcome<i128, RouterError>)
      modifies this, tokens
      ensures match Execute(self, old(State()), old(tokens.books), env, p, venue)
              case Ok(f) => r == Ok(f.amounts[|p.path|])
                            && State() == Settled(old(State()), env, p, f.amounts) && tokens.books == f.ledger
              case Err(e) => r == Err(e) && Now() == old(Now())
              case Trap(c) => r == Trap(c) && Now() == old(Now())
    {
      var savedAdmin, savedPaused, savedNonce, savedRegistry, savedLog := admin, paused, nonce, registry, log;
      var savedBooks := tokens.books;
      r := Swap(env, p, venue);
      if !r.Ok? {
        admin, paused, nonce, registry, log := savedAdmin, savedPaused, savedNonce, savedRegistry, savedLog;
        tokens.books := savedBooks;
      }
    }

    /** One transaction. Management calls write nothing unless they succeed. */
    method Invoke(env: Env, a: Action) returns (committed: bool)
      modifies this, tokens
      ensures committed == Perform(self, old(Now()), env, a).Ok?
      ensures Now() == Transact(self, old(Now()), env, a)
    {
      match a {
        case Initialize(newAdmin) =>
          var r := this.Initialize(env, newAdmin);
          committed := r.Ok?;
        case SetAdmin(newAdmin) =>
          var r := this.SetAdmin(env, newAdmin);
          committed := r.Ok?;
        case SetPaused(value) =>
          var r := this.SetPaused(env, value);
          committed := r.Ok?;
        case SetProtocol(protocol, adapter) =>
          var r := this.SetProtocol(env, protocol, adapter);
          committed := r.Ok?;
        case RemoveProtocol(protocol) =>
          var r := this.RemoveProtocol(env, protocol);
          committed := r.Ok?;
        case Upgrade(wasmHash) =>
          var r := this.Upgrade(env, wasmHash);
          committed := r.Ok?;
        case Swap(p, venue) =>
          var r := SwapTransaction(env, p, venue);
          committed := r.Ok?;
        case Elsewhere(after) =>
          tokens.books := after;
          committed := true;
      }
    }
  }
}
