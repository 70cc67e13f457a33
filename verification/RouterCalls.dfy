/** The router's storage and management events, as the calls that committed made them. */
module RouterCalls {
  import opened Machine
  import opened Tokens
  import opened Interfaces
  import opened Routing
  import opened RouterSteps
  import opened RouterLog
  import opened Refusals

  /** Exactly when each management call commits and which error or trap it answers otherwise; a call that does not
      commit changes nothing. */
  lemma ManagementDecides(self: Address, w: World, env: Env, a: Action)
    requires !a.Swap? && !a.Elsewhere?
    ensures var r, s := Perform(self, w, env, a), w.router;
            var signed := s.admin.Some? && s.admin.value in env.signers;
            && (a.Initialize? ==> r.Ok? == s.admin.None? && (s.admin.Some? ==> r == Err(AlreadyInitialized)))
            && (!a.Initialize? ==>
                  && (r == Err(NotInitialized) <==> s.admin.None?)
                  && (r == Trap(Unauthorized) <==> s.admin.Some? && s.admin.value !in env.signers))
            && (a.SetPaused? || a.SetProtocol? || a.Upgrade? ==> (r.Ok? <==> signed))
            && (a.SetAdmin? ==>
                  && (r.Ok? <==> signed && a.newAdmin != s.admin.value)
                  && (r == Err(InvalidAdmin) <==> signed && a.newAdmin == s.admin.value))
            && (a.RemoveProtocol? ==>
                  && (r.Ok? <==> signed && a.protocol in s.registry)
                  && (r == Err(ProtocolNotFound) <==> signed && a.protocol !in s.registry))
            && (r.Ok? ==> r.value.ledger == w.ledger && Transact(self, w, env, a) == r.value)
            && (!r.Ok? ==> Transact(self, w, env, a) == w)
  {
  }

  // ---- Storage ---------------------------------------------------------------------

  /** The calls of a history that committed, in order. */
  ghost function Committed(self: Address, ledger: Ledger, h: History): History {
    if h == [] then [] else
    var t, call := h[..|h| - 1], h[|h| - 1];
    Committed(self, ledger, t) + (if Perform(self, Run(self, ledger, t), call.0, call.1).Ok? then [call] else [])
  }

  /** The admin named last. */
  ghost function LastAdmin(calls: History): Option<Address> {
    if calls == [] then None else
    match calls[|calls| - 1].1
    case Initialize(admin) => Some(admin)
    case SetAdmin(newAdmin) => Some(newAdmin)
    case _ => LastAdmin(calls[..|calls| - 1])
  }

  /** The flag given last; before any, the router is live. */
  ghost function LastPause(calls: History): bool {
    if calls == [] then false else
    match calls[|calls| - 1].1
    case SetPaused(paused) => paused
    case _ => LastPause(calls[..|calls| - 1])
  }

  /** The adapter given last for a protocol, unless it was removed since. */
  ghost function LastAdapter(calls: History, protocol: Symbol): Option<Address> {
    if calls == [] then None else
    var a := calls[|calls| - 1].1;
    if a.SetProtocol? && a.protocol == protocol then Some(a.adapter)
    else if a.RemoveProtocol? && a.protocol == protocol then None
    else LastAdapter(calls[..|calls| - 1], protocol)
  }

  ghost function SwapCalls(calls: History): nat {
    if calls == [] then 0
    else SwapCalls(calls[..|calls| - 1]) + (if calls[|calls| - 1].1.Swap? then 1 else 0)
  }

  ghost predicate Follows(s: RouterState, calls: History) {
    && s.admin == LastAdmin(calls) && s.paused == LastPause(calls) && s.nonce == SwapCalls(calls)
    && forall x :: (if x in s.registry then Some(s.registry[x]) else None) == LastAdapter(calls, x)
  }

  lemma StepFollows(self: Address, w: World, env: Env, a: Action, calls: History)
    requires Follows(w.router, calls) && (w.router.admin.None? ==> w.router == FRESH)
    requires Perform(self, w, env, a).Ok?
    ensures Follows(Transact(self, w, env, a).router, calls + [(env, a)])
  {
    hide Execute, Block;
    var c := calls + [(env, a)];
    assert c[..|c| - 1] == calls;
    TransactStorage(self, w, env, a);
  }

  /** After any history admin, pause flag, registry and nonce are as the arguments of the committed calls say: the admin
      named last, the flag given last, for each protocol the adapter given last unless removed since, and the number of
      swaps that settled. */
  lemma {:induction false} StorageFollowsCalls(self: Address, ledger: Ledger, h: History)
    ensures Follows(Run(self, ledger, h).router, Committed(self, ledger, h))
  {
    if h != [] {
      var t, call := h[..|h| - 1], h[|h| - 1];
      StorageFollowsCalls(self, ledger, t);
      UninitializedIsFresh(self, ledger, t);
      var w := Run(self, ledger, t);
      if Perform(self, w, call.0, call.1).Ok? {
        hide Follows, Transact, Perform;
        StepFollows(self, w, call.0, call.1, Committed(self, ledger, t));
      } else {
        assert Transact(self, w, call.0, call.1) == w;
        assert Committed(self, ledger, t) + [] == Committed(self, ledger, t);
        hide Follows, Transact, Perform;
      }
    }
  }

  // ---- The pause flag ----------------------------------------------------------------

  ghost predicate Sets(calls: History, i: nat, paused: bool) {
    i < |calls| && calls[i].1.SetPaused? && calls[i].1.paused == paused
  }

  /** Some call paused the router, and none since has resumed it. */
  ghost predicate OnHold(calls: History) {
    exists i :: Sets(calls, i, true) && forall k :: i < k ==> !Sets(calls, k, false)
  }

  lemma {:induction false} LastPauseHolds(calls: History)
    ensures LastPause(calls) <==> OnHold(calls)
  {
    if calls != [] {
      var t, last := calls[..|calls| - 1], |calls| - 1;
      LastPauseHolds(t);
      assert forall i: nat, b :: i < last ==> (Sets(t, i, b) <==> Sets(calls, i, b));
      assert forall i: nat, b :: last <= i ==> !Sets(t, i, b) && (last < i ==> !Sets(calls, i, b));
      if calls[last].1.SetPaused? {
        assert Sets(calls, last, calls[last].1.paused);
      } else {
        assert forall i: nat, b :: Sets(t, i, b) <==> Sets(calls, i, b);
      }
    }
  }

  /** A swap is refused as paused exactly from a committed `set_paused(true)` up to the next committed
      `set_paused(false)`, whatever is asked for. */
  lemma PausedExactly(self: Address, ledger: Ledger, h: History, env: Env, p: SwapParams, venue: Venue)
    ensures Perform(self, Run(self, ledger, h), env, Swap(p, venue)) == Err(RouterError.Paused)
            <==> OnHold(Committed(self, ledger, h))
  {
    var w := Run(self, ledger, h);
    StorageFollowsCalls(self, ledger, h);
    UninitializedIsFresh(self, ledger, h);
    LastPauseHolds(Committed(self, ledger, h));
    RefusalCodes(self, w.router, w.ledger, env, p, venue);
    hide Run, Committed, Execute, OnHold, LastAdmin, LastPause, LastAdapter, SwapCalls, Settled;
  }

  // ---- Management events -------------------------------------------------------------

  function ManagementEvents(log: seq<RouterEvent>): seq<RouterEvent> {
    if log == [] then [] else
    var e := log[|log| - 1];
    ManagementEvents(log[..|log| - 1]) + (if e.SwapExecuted? || e.HopExecuted? then [] else [e])
  }

  /** What a committed call of an admin tells. */
  ghost function Notice(caller: Option<Address>, a: Action): seq<RouterEvent> {
    match a
    case Initialize(admin) => [Initialized(admin, EVENT_SCHEMA_VERSION)]
    case SetAdmin(newAdmin) => if caller.None? then [] else [AdminChanged(caller.value, newAdmin, EVENT_SCHEMA_VERSION)]
    case SetPaused(paused) => if caller.None? then [] else [PauseChanged(caller.value, paused, EVENT_SCHEMA_VERSION)]
    case SetProtocol(protocol, adapter) => [ProtocolSet(protocol, adapter, EVENT_SCHEMA_VERSION)]
    case RemoveProtocol(protocol) => [ProtocolRemoved(protocol, EVENT_SCHEMA_VERSION)]
    case Upgrade(wasmHash) => if caller.None? then [] else [Upgraded(caller.value, wasmHash, EVENT_SCHEMA_VERSION)]
    case _ => []
  }

  ghost function Notices(calls: History): seq<RouterEvent> {
    if calls == [] then [] else
    var t := calls[..|calls| - 1];
    Notices(t) + Notice(LastAdmin(t), calls[|calls| - 1].1)
  }

  lemma {:induction false} ManagementConcat(a: seq<RouterEvent>, b: seq<RouterEvent>)
    ensures ManagementEvents(a + b) == ManagementEvents(a) + ManagementEvents(b)
    decreases |b|
  {
    if b == [] {
      assert a + b == a;
    } else {
      ManagementConcat(a, b[..|b| - 1]);
      assert (a + b)[..|a + b| - 1] == a + b[..|b| - 1];
    }
  }

  lemma {:induction false} HopsManageNothing(id: u64, p: SwapParams, amounts: seq<i128>, n: nat)
    requires n <= |p.path| && n < |amounts|
    ensures ManagementEvents(HopRecords(id, p, amounts, n)) == []
  {
    if n > 0 {
      HopsManageNothing(id, p, amounts, n - 1);
      var hops := HopRecords(id, p, amounts, n);
      assert hops[..|hops| - 1] == HopRecords(id, p, amounts, n - 1);
    }
  }

  lemma BlockManagesNothing(log: seq<RouterEvent>, id: u64, env: Env, p: SwapParams, amounts: seq<i128>)
    requires |amounts| == |p.path| + 1
    ensures ManagementEvents(log + Block(id, env, p, amounts)) == ManagementEvents(log)
  {
    var hops, e := HopRecords(id, p, amounts, |p.path|), Summary(id, env, p, amounts);
    HopsManageNothing(id, p, amounts, |p.path|);
    ManagementConcat(log, hops + [e]);
    assert (hops + [e])[..|hops|] == hops;
  }

  lemma ManagedNotice(s: RouterState, env: Env, a: Action)
    requires !a.Swap? && !a.Elsewhere? && Managed(s, env, a).Ok?
    ensures Managed(s, env, a).value.log == s.log + Notice(s.admin, a)
    ensures ManagementEvents(Managed(s, env, a).value.log) == ManagementEvents(s.log) + Notice(s.admin, a)
  {
  }

  lemma StepTells(self: Address, w: World, env: Env, a: Action)
    ensures ManagementEvents(Transact(self, w, env, a).router.log)
         == ManagementEvents(w.router.log) + (if Perform(self, w, env, a).Ok? then Notice(w.router.admin, a) else [])
  {
    hide ManagementEvents, Execute, Managed, Block;
    TransactStorage(self, w, env, a);
    if a.Swap? {
      if Execute(self, w.router, w.ledger, env, a.params, a.venue).Ok? {
        BlockManagesNothing(w.router.log, w.router.nonce + 1, env, a.params,
                            Execute(self, w.router, w.ledger, env, a.params, a.venue).value.amounts);
      }
    } else if !a.Elsewhere? && Managed(w.router, env, a).Ok? {
      ManagedNotice(w.router, env, a);
    }
  }

  /** After any history the management events of the log are those of the committed calls, in order, each with its
      arguments and the admin who made it. */
  lemma {:induction false} EventsFollowCalls(self: Address, ledger: Ledger, h: History)
    ensures ManagementEvents(Run(self, ledger, h).router.log) == Notices(Committed(self, ledger, h))
  {
    if h != [] {
      var t := h[..|h| - 1];
      var (env, a) := h[|h| - 1];
      var w, c := Run(self, ledger, t), Committed(self, ledger, t);
      EventsFollowCalls(self, ledger, t);
      StorageFollowsCalls(self, ledger, t);
      assert w.router.admin == LastAdmin(c);
      hide Follows, ManagementEvents, Transact, Perform, Notice, LastAdmin;
      StepTells(self, w, env, a);
      assert (c + [(env, a)])[..|c|] == c;
      assert c + [] == c;
    }
  }
}
