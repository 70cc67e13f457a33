/** What a reader of the router's event log can rely on after any history of transactions. */
module RouterLog {
  import opened Machine
  import opened Tokens
  import opened Interfaces
  import opened Routing
  import opened RouterSteps

  // ---- The indexer: joining hop records to their summary ------------------------

  datatype Leg = Leg(protocol: Symbol, pool: Address, tokenIn: Address, tokenOut: Address,
                     amountIn: i128, amountOut: i128)

  datatype Row = Row(executionId: u64, trader: Address, tokenIn: Address, tokenOut: Address,
                     amountIn: i128, amountOut: i128, ledger: u32, version: u32, legs: seq<Leg>)

  function LegOf(e: RouterEvent): Leg
    requires e.HopExecuted?
  {
    Leg(e.protocol, e.pool, e.tokenIn, e.tokenOut, e.amountIn, e.amountOut)
  }

  /** The legs of one execution: its hop records, wherever they are in the log. */
  function LegsOf(log: seq<RouterEvent>, id: u64): seq<Leg> {
    if log == [] then [] else
    var e := log[|log| - 1];
    LegsOf(log[..|log| - 1], id) + (if e.HopExecuted? && e.executionId == id then [LegOf(e)] else [])
  }

  /** One row per summary in `log`, its legs looked up in `full`. */
  function RowsIn(full: seq<RouterEvent>, log: seq<RouterEvent>): seq<Row> {
    if log == [] then [] else
    var e := log[|log| - 1];
    RowsIn(full, log[..|log| - 1])
    + (if e.SwapExecuted?
       then [Row(e.executionId, e.trader, e.tokenIn, e.tokenOut, e.amountIn, e.amountOut, e.ledger, e.version,
                 LegsOf(full, e.executionId))]
       else [])
  }

  // ---- What really happened ------------------------------------------------------

  function LegsTaken(p: SwapParams, amounts: seq<i128>, n: nat): seq<Leg>
    requires n <= |p.path| && n < |amounts|
  {
    if n == 0 then [] else
    var step := p.path[n - 1];
    LegsTaken(p, amounts, n - 1)
    + [Leg(step.protocol, step.pool, step.tokenIn, step.tokenOut, amounts[n - 1], amounts[n])]
  }

  ghost function RowOf(id: u64, env: Env, p: SwapParams, amounts: seq<i128>): Row
    requires |amounts| == |p.path| + 1
  {
    Row(id, p.trader, p.tokenIn, p.tokenOut, p.amountIn, amounts[|p.path|], env.sequence,
        EVENT_SCHEMA_VERSION, LegsTaken(p, amounts, |p.path|))
  }

  /** The row of a swap that settles: the request as made, with the verified amounts. */
  ghost function RowsAdded(self: Address, w: World, env: Env, a: Action): seq<Row> {
    if a.Swap? && Execute(self, w.router, w.ledger, env, a.params, a.venue).Ok? then
      var f := Execute(self, w.router, w.ledger, env, a.params, a.venue).value;
      [RowOf(w.router.nonce + 1, env, a.params, f.amounts)]
    else []
  }

  /** One row per swap of the history that settled. */
  ghost function SwapsSettled(self: Address, ledger: Ledger, h: History): seq<Row> {
    if h == [] then [] else
    SwapsSettled(self, ledger, h[..|h| - 1])
    + RowsAdded(self, Run(self, ledger, h[..|h| - 1]), h[|h| - 1].0, h[|h| - 1].1)
  }

  // ---- The shape of the log ------------------------------------------------------

  /** `hops` are the records of the swap that `e` summarizes: dense, chained, ending where `e` says. */
  ghost predicate IsBlock(hops: seq<RouterEvent>, e: RouterEvent) {
    && e.SwapExecuted? && |hops| == |e.protocols| && hops != []
    && (forall k :: 0 <= k < |hops| ==>
          && hops[k].HopExecuted?
          && hops[k].executionId == e.executionId && hops[k].trader == e.trader
          && hops[k].hopIndex == k && hops[k].protocol == e.protocols[k] && hops[k].version == e.version
          && 0 < hops[k].amountIn && 0 < hops[k].amountOut)
    && (forall k :: 0 < k < |hops| ==>
          hops[k].tokenIn == hops[k - 1].tokenOut && hops[k].amountIn == hops[k - 1].amountOut)
    && hops[0].tokenIn == e.tokenIn && hops[0].amountIn == e.amountIn
    && hops[|hops| - 1].tokenOut == e.tokenOut && hops[|hops| - 1].amountOut == e.amountOut
  }

  /** Management events and whole swap blocks, the blocks numbered 1, 2, ..., n in order. */
  ghost predicate WellFormed(log: seq<RouterEvent>, n: nat)
    decreases |log|
  {
    if log == [] then n == 0 else
    var last := |log| - 1;
    if log[last].SwapExecuted? then
      var first := last - |log[last].protocols|;
      && 0 < n && log[last].executionId == n
      && 0 <= first && IsBlock(log[first..last], log[last])
      && WellFormed(log[..first], n - 1)
    else
      !log[last].HopExecuted? && WellFormed(log[..last], n)
  }

  // ---- Facts about blocks --------------------------------------------------------

  lemma {:induction false} HopRecordAt(id: u64, p: SwapParams, amounts: seq<i128>, n: nat)
    requires n <= |p.path| && n < |amounts|
    ensures |HopRecords(id, p, amounts, n)| == n && |Protocols(p.path, n)| == n
    ensures forall k :: 0 <= k < n ==>
      HopRecords(id, p, amounts, n)[k] == HopRecord(id, p, amounts, k) && Protocols(p.path, n)[k] == p.path[k].protocol
  {
    if n > 0 {
      HopRecordAt(id, p, amounts, n - 1);
    }
  }

  /** Every amount a swap verifies is positive, whatever the adapters do. */
  lemma {:induction false} AmountsPositive(job: Job, start: Ledger, k: nat)
    requires k <= |job.p.path| && 0 < job.p.amountIn && FlowAt(job, start, k).Ok?
    ensures var a := FlowAt(job, start, k).value.amounts;
            a[0] == job.p.amountIn && forall j :: 0 <= j <= k ==> 0 < a[j]
  {
    if k > 0 {
      AmountsPositive(job, start, k - 1);
    }
  }

  lemma BlockShape(id: u64, env: Env, p: SwapParams, amounts: seq<i128>)
    requires |amounts| == |p.path| + 1 && p.path != [] && RouteOk(p.tokenIn, p.tokenOut, p.path)
    requires amounts[0] == p.amountIn && forall j :: 0 <= j < |amounts| ==> 0 < amounts[j]
    ensures IsBlock(HopRecords(id, p, amounts, |p.path|), Summary(id, env, p, amounts))
  {
    HopRecordAt(id, p, amounts, |p.path|);
    var hops := HopRecords(id, p, amounts, |p.path|);
    forall k | 0 < k < |hops|
      ensures hops[k].tokenIn == hops[k - 1].tokenOut
    {
      assert StepOk(p.tokenIn, p.path, k);
    }
    assert StepOk(p.tokenIn, p.path, 0);
  }

  /** What a settled swap appended to the log. */
  lemma SettledBlock(self: Address, s: RouterState, l: Ledger, env: Env, p: SwapParams, venue: Venue)
    requires Execute(self, s, l, env, p, venue).Ok?
    ensures var amounts := Execute(self, s, l, env, p, venue).value.amounts;
            IsBlock(HopRecords(s.nonce + 1, p, amounts, |p.path|), Summary(s.nonce + 1, env, p, amounts))
  {
    hide Hop;
    var start := Moved(l, p.tokenIn, p.trader, self, p.amountIn).value;
    AmountsPositive(Job(self, s.registry, p, venue), start, |p.path|);
    BlockShape(s.nonce + 1, env, p, Execute(self, s, l, env, p, venue).value.amounts);
  }

  lemma BlockAppended(log: seq<RouterEvent>, n: nat, hops: seq<RouterEvent>, e: RouterEvent)
    requires WellFormed(log, n) && IsBlock(hops, e) && e.executionId == n + 1
    ensures WellFormed(log + (hops + [e]), n + 1)
  {
  }

  /** After any history the log is well formed, and the last execution id is the nonce. */
  lemma {:induction false} LogWellFormed(self: Address, ledger: Ledger, h: History)
    ensures WellFormed(Run(self, ledger, h).router.log, Run(self, ledger, h).router.nonce)
  {
    if h != [] {
      LogWellFormed(self, ledger, h[..|h| - 1]);
      UninitializedIsFresh(self, ledger, h[..|h| - 1]);
      var before := Run(self, ledger, h[..|h| - 1]);
      var (env, a) := h[|h| - 1];
      TransactStorage(self, before, env, a);
      hide WellFormed, Transact, Execute, Managed, Settled;
      if a.Swap? && Execute(self, before.router, before.ledger, env, a.params, a.venue).Ok? {
        SwapWellFormed(self, before, env, a.params, a.venue);
      } else if !a.Swap? && !a.Elsewhere? && Managed(before.router, env, a).Ok? {
        ManagedWellFormed(before.router, env, a);
      }
    }
  }

  lemma SwapWellFormed(self: Address, w: World, env: Env, p: SwapParams, venue: Venue)
    requires WellFormed(w.router.log, w.router.nonce)
    requires Execute(self, w.router, w.ledger, env, p, venue).Ok?
    ensures var s := Settled(w.router, env, p, Execute(self, w.router, w.ledger, env, p, venue).value.amounts);
            WellFormed(s.log, s.nonce)
  {
    hide Execute, WellFormed, IsBlock;
    SettledBlock(self, w.router, w.ledger, env, p, venue);
    var id, amounts := w.router.nonce + 1, Execute(self, w.router, w.ledger, env, p, venue).value.amounts;
    BlockAppended(w.router.log, w.router.nonce, HopRecords(id, p, amounts, |p.path|), Summary(id, env, p, amounts));
  }

  lemma ManagedWellFormed(s: RouterState, env: Env, a: Action)
    requires !a.Swap? && !a.Elsewhere? && Managed(s, env, a).Ok?
    requires WellFormed(s.log, s.nonce) && (s.admin.None? ==> s == FRESH)
    ensures var r := Managed(s, env, a).value;
            WellFormed(r.log, r.nonce)
  {
  }

  // ---- The indexer recovers what happened ------------------------------------------

  ghost predicate IdsWithin(log: seq<RouterEvent>, n: nat) {
    forall i :: 0 <= i < |log| && (log[i].HopExecuted? || log[i].SwapExecuted?) ==> log[i].executionId <= n
  }

  lemma {:induction false} WellFormedIds(log: seq<RouterEvent>, n: nat)
    requires WellFormed(log, n)
    ensures IdsWithin(log, n)
    decreases |log|
  {
    if log != [] {
      var last := |log| - 1;
      if log[last].SwapExecuted? {
        var first := last - |log[last].protocols|;
        WellFormedIds(log[..first], n - 1);
        assert forall i :: first <= i < last ==> log[i] == log[first..last][i - first];
      } else {
        WellFormedIds(log[..last], n);
      }
    }
  }

  lemma {:induction false} LegsOfConcat(a: seq<RouterEvent>, b: seq<RouterEvent>, id: u64)
    ensures LegsOf(a + b, id) == LegsOf(a, id) + LegsOf(b, id)
    decreases |b|
  {
    if b == [] {
      assert a + b == a;
    } else {
      LegsOfConcat(a, b[..|b| - 1], id);
      assert (a + b)[..|a + b| - 1] == a + b[..|b| - 1];
    }
  }

  lemma {:induction false} RowsInConcat(full: seq<RouterEvent>, a: seq<RouterEvent>, b: seq<RouterEvent>)
    ensures RowsIn(full, a + b) == RowsIn(full, a) + RowsIn(full, b)
    decreases |b|
  {
    if b == [] {
      assert a + b == a;
    } else {
      RowsInConcat(full, a, b[..|b| - 1]);
      assert (a + b)[..|a + b| - 1] == a + b[..|b| - 1];
    }
  }

  lemma {:induction false} NoLegsBeyond(log: seq<RouterEvent>, n: nat, id: u64)
    requires IdsWithin(log, n) && n < id
    ensures LegsOf(log, id) == []
    decreases |log|
  {
    if log != [] {
      NoLegsBeyond(log[..|log| - 1], n, id);
    }
  }

  /** The hop records of a block yield its legs, for its own id and for no other, and no rows. */
  lemma {:induction false} BlockLegs(full: seq<RouterEvent>, id: u64, p: SwapParams, amounts: seq<i128>, n: nat,
        other: u64)
    requires n <= |p.path| && n < |amounts| && other != id
    ensures LegsOf(HopRecords(id, p, amounts, n), id) == LegsTaken(p, amounts, n)
    ensures LegsOf(HopRecords(id, p, amounts, n), other) == []
    ensures RowsIn(full, HopRecords(id, p, amounts, n)) == []
  {
    if n > 0 {
      BlockLegs(full, id, p, amounts, n - 1, other);
      var hops := HopRecords(id, p, amounts, n);
      assert hops[..|hops| - 1] == HopRecords(id, p, amounts, n - 1);
    }
  }

  /** Events that add no legs to ids up to n leave the rows of a log with such ids as they were. */
  lemma {:induction false} RowsStable(full: seq<RouterEvent>, added: seq<RouterEvent>, log: seq<RouterEvent>, n: nat)
    requires IdsWithin(log, n)
    requires forall id: u64 :: id <= n ==> LegsOf(added, id) == []
    ensures RowsIn(full + added, log) == RowsIn(full, log)
    decreases |log|
  {
    if log != [] {
      RowsStable(full, added, log[..|log| - 1], n);
      var e := log[|log| - 1];
      if e.SwapExecuted? {
        LegsOfConcat(full, added, e.executionId);
        assert LegsOf(full + added, e.executionId) == LegsOf(full, e.executionId);
      }
    }
  }

  /** Appending a block with a fresh id adds exactly its row. */
  lemma RowAppended(log: seq<RouterEvent>, n: nat, id: u64, env: Env, p: SwapParams, amounts: seq<i128>)
    requires IdsWithin(log, n) && id == n + 1 && |amounts| == |p.path| + 1
    ensures var all := log + Block(id, env, p, amounts);
            RowsIn(all, all) == RowsIn(log, log) + [RowOf(id, env, p, amounts)]
  {
    var hops, e := HopRecords(id, p, amounts, |p.path|), Summary(id, env, p, amounts);
    var block := hops + [e];
    var all := log + block;
    forall other: u64 | other != id
      ensures LegsOf(block, other) == []
    {
      BlockLegs(all, id, p, amounts, |p.path|, other);
      LegsOfConcat(hops, [e], other);
    }
    RowsStable(log, block, log, n);
    RowsInConcat(all, log, block);
    assert block[..|block| - 1] == hops;
    BlockLegs(all, id, p, amounts, |p.path|, 0);
    LegsOfConcat(log, block, id);
    NoLegsBeyond(log, n, id);
    LegsOfConcat(hops, [e], id);
    assert LegsOf([e], id) == [];
    assert LegsOf(all, id) == LegsTaken(p, amounts, |p.path|);
    assert RowsIn(all, block) == [RowOf(id, env, p, amounts)];
  }

  lemma RowsIgnore(log: seq<RouterEvent>, e: RouterEvent)
    requires !e.SwapExecuted? && !e.HopExecuted?
    ensures RowsIn(log + [e], log + [e]) == RowsIn(log, log)
  {
    forall id: u64 ensures LegsOf([e], id) == [] {
    }
    RowsStable(log, [e], log, U64_MAX);
    assert (log + [e])[..|log|] == log;
  }

  lemma RowsStep(self: Address, w: World, env: Env, a: Action)
    requires IdsWithin(w.router.log, w.router.nonce)
    ensures var log := Transact(self, w, env, a).router.log;
            RowsIn(log, log) == RowsIn(w.router.log, w.router.log) + RowsAdded(self, w, env, a)
  {
    TransactStorage(self, w, env, a);
    hide IdsWithin, RowsIn, Execute, Transact, Managed, Block, RowOf;
    if a.Swap? {
      if Execute(self, w.router, w.ledger, env, a.params, a.venue).Ok? {
        var amounts := Execute(self, w.router, w.ledger, env, a.params, a.venue).value.amounts;
        RowAppended(w.router.log, w.router.nonce, w.router.nonce + 1, env, a.params, amounts);
      }
    } else if !a.Elsewhere? && Managed(w.router, env, a).Ok? {
      ManagedAppends(w.router, env, a);
      var log := Managed(w.router, env, a).value.log;
      assert log == w.router.log + [log[|log| - 1]];
      RowsIgnore(w.router.log, log[|log| - 1]);
    }
  }

  /** Joining hop records to summaries by execution id recovers, in order, every swap that settled:
      who swapped what, and each step's protocol, pool, tokens and verified amounts; nothing else. */
  lemma {:induction false} IndexerRecovers(self: Address, ledger: Ledger, h: History)
    ensures var log := Run(self, ledger, h).router.log;
            RowsIn(log, log) == SwapsSettled(self, ledger, h)
  {
    if h != [] {
      var before := Run(self, ledger, h[..|h| - 1]);
      IndexerRecovers(self, ledger, h[..|h| - 1]);
      LogWellFormed(self, ledger, h[..|h| - 1]);
      WellFormedIds(before.router.log, before.router.nonce);
      hide WellFormed, IdsWithin, RowsIn, Transact, RowsAdded;
      RowsStep(self, before, h[|h| - 1].0, h[|h| - 1].1);
    }
  }

  // ---- Event sourcing ----------------------------------------------------------------

  /** Storage as a reader of the log reconstructs it. */
  datatype Replica = Replica(admin: Option<Address>, paused: bool, registry: map<Symbol, Address>, nonce: nat)

  function Apply(r: Replica, e: RouterEvent): Replica {
    match e
    case Initialized(admin, _) => r.(admin := Some(admin))
    case AdminChanged(_, newAdmin, _) => r.(admin := Some(newAdmin))
    case PauseChanged(_, paused, _) => r.(paused := paused)
    case ProtocolSet(protocol, adapter, _) => r.(registry := r.registry[protocol := adapter])
    case ProtocolRemoved(protocol, _) => r.(registry := r.registry - {protocol})
    case SwapExecuted(_, _, _, _, _, _, _, _, _) => r.(nonce := r.nonce + 1)
    case _ => r
  }

  function Replay(log: seq<RouterEvent>): Replica {
    if log == [] then Replica(None, false, map[], 0)
    else Apply(Replay(log[..|log| - 1]), log[|log| - 1])
  }

  ghost function Storage(s: RouterState): Replica {
    Replica(s.admin, s.paused, s.registry, s.nonce)
  }

  lemma {:induction false} ReplayHops(log: seq<RouterEvent>, id: u64, p: SwapParams, amounts: seq<i128>, n: nat)
    requires n <= |p.path| && n < |amounts|
    ensures Replay(log + HopRecords(id, p, amounts, n)) == Replay(log)
  {
    if n == 0 {
      assert log + [] == log;
    } else {
      ReplayHops(log, id, p, amounts, n - 1);
      var all := log + HopRecords(id, p, amounts, n);
      assert all[..|all| - 1] == log + HopRecords(id, p, amounts, n - 1);
    }
  }

  lemma ReplayBlock(log: seq<RouterEvent>, id: u64, env: Env, p: SwapParams, amounts: seq<i128>)
    requires |amounts| == |p.path| + 1
    ensures var r := Replay(log);
            Replay(log + Block(id, env, p, amounts)) == r.(nonce := r.nonce + 1)
  {
    ReplayHops(log, id, p, amounts, |p.path|);
    var all := log + Block(id, env, p, amounts);
    assert all[..|all| - 1] == log + HopRecords(id, p, amounts, |p.path|);
  }

  lemma ReplayManaged(s: RouterState, env: Env, a: Action)
    requires !a.Swap? && !a.Elsewhere? && Managed(s, env, a).Ok?
    requires Replay(s.log) == Storage(s) && (s.admin.None? ==> s == FRESH)
    ensures Replay(Managed(s, env, a).value.log) == Storage(Managed(s, env, a).value)
  {
    ManagedAppends(s, env, a);
  }

  /** Folding the log from the empty state gives back admin, pause flag, registry and nonce. */
  lemma {:induction false} LogReplays(self: Address, ledger: Ledger, h: History)
    ensures Replay(Run(self, ledger, h).router.log) == Storage(Run(self, ledger, h).router)
  {
    if h != [] {
      var before := Run(self, ledger, h[..|h| - 1]);
      var (env, a) := h[|h| - 1];
      LogReplays(self, ledger, h[..|h| - 1]);
      UninitializedIsFresh(self, ledger, h[..|h| - 1]);
      TransactStorage(self, before, env, a);
      hide Execute, Replay, Block, Transact, Managed;
      if a.Swap? {
        if Execute(self, before.router, before.ledger, env, a.params, a.venue).Ok? {
          ReplayBlock(before.router.log, before.router.nonce + 1, env, a.params,
                      Execute(self, before.router, before.ledger, env, a.params, a.venue).value.amounts);
        }
      } else if !a.Elsewhere? && Managed(before.router, env, a).Ok? {
        ReplayManaged(before.router, env, a);
      }
    }
  }

  function Initializations(log: seq<RouterEvent>): nat {
    if log == [] then 0
    else Initializations(log[..|log| - 1]) + (if log[|log| - 1].Initialized? then 1 else 0)
  }

  lemma {:induction false} InitializationsConcat(a: seq<RouterEvent>, b: seq<RouterEvent>)
    ensures Initializations(a + b) == Initializations(a) + Initializations(b)
    decreases |b|
  {
    if b == [] {
      assert a + b == a;
    } else {
      InitializationsConcat(a, b[..|b| - 1]);
      assert (a + b)[..|a + b| - 1] == a + b[..|b| - 1];
    }
  }

  lemma {:induction false} HopsInitializeNothing(id: u64, p: SwapParams, amounts: seq<i128>, n: nat)
    requires n <= |p.path| && n < |amounts|
    ensures Initializations(HopRecords(id, p, amounts, n)) == 0
  {
    if n > 0 {
      HopsInitializeNothing(id, p, amounts, n - 1);
      var hops := HopRecords(id, p, amounts, n);
      assert hops[..|hops| - 1] == HopRecords(id, p, amounts, n - 1);
    }
  }

  lemma ManagedInitializes(s: RouterState, env: Env, a: Action)
    requires !a.Swap? && !a.Elsewhere? && Managed(s, env, a).Ok?
    ensures var r := Managed(s, env, a).value;
            && r.admin.Some?
            && Initializations(r.log) == Initializations(s.log) + (if s.admin.None? then 1 else 0)
  {
  }

  /** The router is initialized exactly when the log holds an `Initialized` event, and it never holds two. */
  lemma {:induction false} InitializedOnce(self: Address, ledger: Ledger, h: History)
    ensures var s := Run(self, ledger, h).router;
            Initializations(s.log) == if s.admin.Some? then 1 else 0
  {
    if h != [] {
      var before := Run(self, ledger, h[..|h| - 1]);
      var (env, a) := h[|h| - 1];
      InitializedOnce(self, ledger, h[..|h| - 1]);
      TransactStorage(self, before, env, a);
      hide Initializations, Execute, Transact, Managed, Block;
      if a.Swap? {
        if Execute(self, before.router, before.ledger, env, a.params, a.venue).Ok? {
          var amounts := Execute(self, before.router, before.ledger, env, a.params, a.venue).value.amounts;
          BlockInitializesNothing(before.router.log, before.router.nonce + 1, env, a.params, amounts);
        }
      } else if !a.Elsewhere? && Managed(before.router, env, a).Ok? {
        ManagedInitializes(before.router, env, a);
      }
    }
  }

  lemma BlockInitializesNothing(log: seq<RouterEvent>, id: u64, env: Env, p: SwapParams, amounts: seq<i128>)
    requires |amounts| == |p.path| + 1
    ensures Initializations(log + Block(id, env, p, amounts)) == Initializations(log)
  {
    var hops, e := HopRecords(id, p, amounts, |p.path|), Summary(id, env, p, amounts);
    HopsInitializeNothing(id, p, amounts, |p.path|);
    InitializationsConcat(log, hops + [e]);
    assert (hops + [e])[..|hops|] == hops;
  }
}
