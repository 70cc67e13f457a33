/** The router's entry points as transactions on its storage and the ledger, and runs of them. */
module RouterSteps {
  import opened Machine
  import opened Tokens
  import opened Interfaces
  import opened Routing

  datatype World = World(router: RouterState, ledger: Ledger)

  /** One transaction: a call of a router entry point, or anything else that happens to the ledger. */
  datatype Action =
    | Initialize(admin: Address)
    | SetAdmin(newAdmin: Address)
    | SetPaused(paused: bool)
    | SetProtocol(protocol: Symbol, adapter: Address)
    | RemoveProtocol(protocol: Symbol)
    | Upgrade(wasmHash: seq<bv8>)
    | Swap(params: SwapParams, venue: Venue)
    | Elsewhere(after: Ledger)

  const FRESH: RouterState := RouterState(None, false, 0, map[], [])

  function Emit(s: RouterState, e: RouterEvent): RouterState {
    s.(log := s.log + [e])
  }

  /** Storage after a management call. All but `Initialize` need the stored admin's signature. */
  ghost function Managed(s: RouterState, env: Env, a: Action): Outcome<RouterState, RouterError>
    requires !a.Swap? && !a.Elsewhere?
  {
    if a.Initialize? then
      if s.admin.Some? then Err(AlreadyInitialized)
      else Ok(Emit(s.(admin := Some(a.admin), paused := false, nonce := 0),
                   Initialized(a.admin, EVENT_SCHEMA_VERSION)))
    else if s.admin.None? then Err(NotInitialized)
    else if s.admin.value !in env.signers then Trap(Unauthorized)
    else match a
      case SetAdmin(newAdmin) =>
        if newAdmin == s.admin.value then Err(InvalidAdmin)
        else Ok(Emit(s.(admin := Some(newAdmin)), AdminChanged(s.admin.value, newAdmin, EVENT_SCHEMA_VERSION)))
      case SetPaused(paused) =>
        Ok(Emit(s.(paused := paused), PauseChanged(s.admin.value, paused, EVENT_SCHEMA_VERSION)))
      case SetProtocol(protocol, adapter) =>
        Ok(Emit(s.(registry := s.registry[protocol := adapter]), ProtocolSet(protocol, adapter, EVENT_SCHEMA_VERSION)))
      case RemoveProtocol(protocol) =>
        if protocol !in s.registry then Err(ProtocolNotFound)
        else Ok(Emit(s.(registry := s.registry - {protocol}), ProtocolRemoved(protocol, EVENT_SCHEMA_VERSION)))
      case Upgrade(wasmHash) =>
        Ok(Emit(s, Upgraded(s.admin.value, wasmHash, EVENT_SCHEMA_VERSION)))
  }

  ghost function Perform(self: Address, w: World, env: Env, a: Action): Outcome<World, RouterError> {
    match a
    case Swap(p, venue) =>
      var f :- Execute(self, w.router, w.ledger, env, p, venue);
      Ok(World(Settled(w.router, env, p, f.amounts), f.ledger))
    case Elsewhere(after) => Ok(w.(ledger := after))
    case _ =>
      var s :- Managed(w.router, env, a);
      Ok(w.(router := s))
  }

  /** The host commits a call that succeeds and undoes every effect of one that does not. */
  ghost function Transact(self: Address, w: World, env: Env, a: Action): World {
    match Perform(self, w, env, a)
    case Ok(after) => after
    case _ => w
  }

  type History = seq<(Env, Action)>

  /** The world after a history, starting from an uninitialized router over `ledger`. */
  ghost function Run(self: Address, ledger: Ledger, h: History): World {
    if h == [] then World(FRESH, ledger) else
    Transact(self, Run(self, ledger, h[..|h| - 1]), h[|h| - 1].0, h[|h| - 1].1)
  }

  /** What a transaction does to the router's storage. */
  ghost function StorageAfter(self: Address, w: World, env: Env, a: Action): RouterState {
    if a.Elsewhere? then w.router
    else if a.Swap? then
      var r := Execute(self, w.router, w.ledger, env, a.params, a.venue);
      if r.Ok? then Settled(w.router, env, a.params, r.value.amounts) else w.router
    else if Managed(w.router, env, a).Ok? then Managed(w.router, env, a).value
    else w.router
  }

  lemma TransactStorage(self: Address, w: World, env: Env, a: Action)
    ensures Transact(self, w, env, a).router == StorageAfter(self, w, env, a)
  {
    hide Execute, Managed, Settled;
  }

  /** A management call appends exactly one event, which is no swap or hop record. */
  lemma ManagedAppends(s: RouterState, env: Env, a: Action)
    requires !a.Swap? && !a.Elsewhere? && Managed(s, env, a).Ok?
    ensures var log := Managed(s, env, a).value.log;
            && log != [] && log[..|log| - 1] == s.log
            && !log[|log| - 1].SwapExecuted? && !log[|log| - 1].HopExecuted?
  {
  }

  /** Before initialization nothing has been stored or emitted. */
  lemma {:induction false} UninitializedIsFresh(self: Address, ledger: Ledger, h: History)
    ensures Run(self, ledger, h).router.admin.None? ==> Run(self, ledger, h).router == FRESH
  {
    if h != [] {
      UninitializedIsFresh(self, ledger, h[..|h| - 1]);
      FreshStays(self, Run(self, ledger, h[..|h| - 1]), h[|h| - 1].0, h[|h| - 1].1);
    }
  }

  lemma FreshStays(self: Address, w: World, env: Env, a: Action)
    requires w.router.admin.None? ==> w.router == FRESH
    ensures Transact(self, w, env, a).router.admin.None? ==> Transact(self, w, env, a).router == FRESH
  {
    hide Execute;
  }

  /** Once there is an admin, who the admin is, whether the router is paused and which adapters are registered change
      only in transactions that admin signed, and each swap that settles was signed by its trader. */
  lemma OnlySignersAct(self: Address, w: World, env: Env, a: Action)
    requires w.router.admin.Some?
    ensures var s := Transact(self, w, env, a).router;
            && (w.router.admin.value !in env.signers ==>
                  s.admin == w.router.admin && s.paused == w.router.paused && s.registry == w.router.registry)
            && (a.Swap? && a.params.trader !in env.signers ==> Transact(self, w, env, a) == w)
  {
  }
}
