/** The router's event log against the tokens that moved. */
module RouterBooks {
  import opened Machine
  import opened Tokens
  import opened Interfaces
  import opened Routing
  import opened RouterSteps
  import opened RouterLog
  import opened Custody

  /** What a logged swap gave `who` of `t`. */
  function RowGain(r: Row, t: Address, who: Address): int {
    if who != r.trader then 0
    else (if t == r.tokenOut then r.amountOut else 0) - (if t == r.tokenIn then r.amountIn else 0)
  }

  /** What all the logged swaps gave `who` of `t`. */
  function RowsGain(rows: seq<Row>, t: Address, who: Address): int {
    if rows == [] then 0
    else RowsGain(rows[..|rows| - 1], t, who) + RowGain(rows[|rows| - 1], t, who)
  }

  // ---- One swap ------------------------------------------------------------------

  /** Before every hop anyone the adapters cannot debit holds at least what they are due, and anyone they only
      deliver to exactly that. */
  lemma {:induction false} HoldsDue(job: Job, l: Ledger, start: Ledger, k: nat, who: Address, exact: bool)
    requires k <= |job.p.path| && Underway(job, l, start, false, false) && Treats(job, who, exact)
    requires FlowAt(job, start, k).Ok?
    ensures DueMet(job, l, k, FlowAt(job, start, k).value, who, exact)
  {
    hide Hop, DueMet, Treats;
    if k == 0 {
      PullDue(job, l, start, who, exact);
    } else {
      HoldsDue(job, l, start, k - 1, who, exact);
      LoopInvariant(job, l, start, k - 1, false, false);
      assert StepOk(job.p.tokenIn, job.p.path, k - 1);
      DueStep(job, l, k - 1, FlowAt(job, start, k - 1).value, who, exact);
    }
  }

  /** A swap that settles changes no balance of anyone its adapters cannot debit by less than its row says, and of
      anyone they only deliver to by exactly that. */
  lemma SwapAsLogged(self: Address, s: RouterState, l: Ledger, env: Env, p: SwapParams, venue: Venue,
        who: Address, exact: bool)
    requires Assumed(self, l, p, venue) && Treats(JobOf(self, s, p, venue), who, exact)
    requires Execute(self, s, l, env, p, venue).Ok?
    ensures var f := Execute(self, s, l, env, p, venue).value;
            && Sound(f.ledger)
            && forall t :: Keeps(exact, Balance(l, t, who) + RowGain(RowOf(s.nonce + 1, env, p, f.amounts), t, who),
                                 Balance(f.ledger, t, who))
  {
    SetUp(self, s, l, env, p, venue, false, false);
    SwapSettles(self, s, l, env, p, venue, false, false);
    var start := Moved(l, p.tokenIn, p.trader, self, p.amountIn).value;
    hide Preflight, Moved, Underway, Treats, Assumed, Balance;
    HoldsDue(JobOf(self, s, p, venue), l, start, |p.path|, who, exact);
    hide FlowAt, LegsTaken;
  }

  // ---- Whole histories -------------------------------------------------------------

  /** A transaction in which nothing but swaps debits `who`; when `exact`, nothing but swaps touches what `who` holds:
      adapters only deliver to it and it is never registered as one. */
  ghost predicate OnlySwaps(self: Address, w: World, a: Action, who: Address, exact: bool) {
    match a
    case Swap(p, venue) =>
      Assumed(self, w.ledger, p, venue) && Spares(venue, who) && (exact ==> Scoped(venue, who))
    case SetProtocol(_, adapter) => exact ==> adapter != who
    case Elsewhere(after) =>
      Sound(after) && forall t :: Keeps(exact, Balance(w.ledger, t, who), Balance(after, t, who))
    case _ => true
  }

  ghost predicate OnlySwapsRun(self: Address, ledger: Ledger, h: History, who: Address, exact: bool) {
    forall k :: 0 <= k < |h| ==> OnlySwaps(self, Run(self, ledger, h[..k]), h[k].1, who, exact)
  }

  /** The balances of `who` are at least, or exactly, those before the history plus what `rows` say. */
  ghost predicate Booked(ledger: Ledger, w: World, rows: seq<Row>, who: Address, exact: bool) {
    && Sound(w.ledger)
    && (exact ==> who !in w.router.registry.Values)
    && forall t :: Keeps(exact, Balance(ledger, t, who) + RowsGain(rows, t, who), Balance(w.ledger, t, who))
  }

  lemma BookedStep(self: Address, ledger: Ledger, w: World, env: Env, a: Action, rows: seq<Row>,
        who: Address, exact: bool)
    requires Booked(ledger, w, rows, who, exact) && OnlySwaps(self, w, a, who, exact)
    ensures Booked(ledger, Transact(self, w, env, a), rows + RowsAdded(self, w, env, a), who, exact)
  {
    if a.Swap? && Execute(self, w.router, w.ledger, env, a.params, a.venue).Ok? {
      var job := JobOf(self, w.router, a.params, a.venue);
      var f := Execute(self, w.router, w.ledger, env, a.params, a.venue).value;
      assert exact ==> AdaptersAvoid(job.registry, job.p.path, who);
      assert Treats(job, who, exact);
      SwapAsLogged(self, w.router, w.ledger, env, a.params, a.venue, who, exact);
      var row := RowOf(w.router.nonce + 1, env, a.params, f.amounts);
      assert (rows + [row])[..|rows|] == rows;
    } else {
      assert rows + [] == rows;
    }
    hide Execute, Sound, Treats, Assumed, Scoped, Spares, RowOf, RowGain, Balance;
  }

  lemma {:induction false} AlwaysBooked(self: Address, ledger: Ledger, h: History, who: Address, exact: bool)
    requires Sound(ledger) && OnlySwapsRun(self, ledger, h, who, exact)
    ensures Booked(ledger, Run(self, ledger, h), SwapsSettled(self, ledger, h), who, exact)
  {
    if h != [] {
      var prefix := h[..|h| - 1];
      assert forall k :: 0 <= k < |prefix| ==> prefix[..k] == h[..k] && prefix[k] == h[k];
      AlwaysBooked(self, ledger, prefix, who, exact);
      assert OnlySwaps(self, Run(self, ledger, prefix), h[|h| - 1].1, who, exact);
      hide Booked, OnlySwaps, OnlySwapsRun, Transact, RowsAdded;
      BookedStep(self, ledger, Run(self, ledger, prefix), h[|h| - 1].0, h[|h| - 1].1,
                 SwapsSettled(self, ledger, prefix), who, exact);
    }
  }

  /** Over any history, an account that nothing but swaps debits never has less, of any token, than what it had before
      plus what the rows of the event log say it received less what they say it paid. It has exactly that if it is no
      adapter and nothing but swaps touches it. */
  lemma LogReconciles(self: Address, ledger: Ledger, h: History, who: Address, exact: bool)
    requires Sound(ledger) && OnlySwapsRun(self, ledger, h, who, exact)
    ensures var w := Run(self, ledger, h);
            forall t :: Keeps(exact, Balance(ledger, t, who) + RowsGain(RowsIn(w.router.log, w.router.log), t, who),
                              Balance(w.ledger, t, who))
  {
    hide *;
    AlwaysBooked(self, ledger, h, who, exact);
    IndexerRecovers(self, ledger, h);
    BookedBalances(ledger, Run(self, ledger, h), SwapsSettled(self, ledger, h), who, exact);
  }

  lemma BookedBalances(ledger: Ledger, w: World, rows: seq<Row>, who: Address, exact: bool)
    requires Booked(ledger, w, rows, who, exact)
    ensures forall t :: Keeps(exact, Balance(ledger, t, who) + RowsGain(rows, t, who), Balance(w.ledger, t, who))
  {
  }
}
