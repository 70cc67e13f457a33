/** The deterministic adapter: fixed-point pricing per pool, delivered from its own inventory. */
module TestAdapter {
  import opened Machine
  import opened FixedPoint
  import opened Tokens
  import opened Interfaces

  datatype AdapterError = NotInitialized | NotAuthorized | InvalidRate | Failed | AlreadyInitialized

  datatype AdapterState = AdapterState(
    admin: Option<Address>, rates: map<Address, Rate>, fails: map<Address, bool>, misreports: map<Address, i128>)
  {
    function RateOf(pool: Address): Rate {
      if pool in rates then rates[pool] else Rate(1, 1)
    }

    predicate Failing(pool: Address) {
      pool in fails && fails[pool]
    }

    /** Every stored rate has a non-negative numerator and a positive denominator. */
    ghost predicate Valid() {
      forall pool :: pool in rates ==> 0 <= rates[pool].num && 0 < rates[pool].denom
    }

    /** What is reported for a pool that delivers `out`. */
    function Report(pool: Address, out: i128): i128 {
      if pool in misreports then misreports[pool] else out
    }
  }

  /** How a swap ends: the amount reported and the ledger after moving the priced output to the recipient, or the
      first failing check. */
  function SwapEnds(s: AdapterState, call: AdapterCall, l: Ledger): Outcome<(i128, Ledger), AdapterError> {
    var rate := s.RateOf(call.pool);
    var out := CheckedMulDiv(call.amountIn, rate.num, rate.denom);
    if s.admin.None? then Err(AdapterError.NotInitialized)
    else if call.amountIn <= 0 || s.Failing(call.pool) then Err(Failed)
    else if call.tokenIn !in l then Trap(NoSuchToken)
    else if Balance(l, call.tokenIn, call.adapter) < call.amountIn || out.None? then Err(Failed)
    else
      var delivered := Moved(l, call.tokenOut, call.adapter, call.recipient, out.value);
      if delivered.None? then Trap(TransferRefused) else Ok((s.Report(call.pool, out.value), delivered.value))
  }

  /** What the router sees of it: every failure is a refusal. */
  function SwapReply(s: AdapterState, call: AdapterCall, l: Ledger): AdapterReply {
    var r := SwapEnds(s, call, l);
    if r.Ok? then Accepted(r.value.0, r.value.1) else Refused
  }

  /** On a sound ledger the adapter accepts exactly when it is set up, is not told to fail, holds the input,
      can price it and can cover the output; it then moves the floor of the price, whatever it reports. */
  lemma SwapDelivers(s: AdapterState, call: AdapterCall, l: Ledger)
    requires Sound(l)
    ensures var rate := if call.pool in s.rates then s.rates[call.pool] else Rate(1, 1);
            var out := CheckedMulDiv(call.amountIn, rate.num, rate.denom);
            var reply := SwapReply(s, call, l);
            && (reply.Accepted? <==>
                  && s.admin.Some? && 0 < call.amountIn && !(call.pool in s.fails && s.fails[call.pool])
                  && call.tokenIn in l && call.amountIn <= Balance(l, call.tokenIn, call.adapter)
                  && out.Some? && call.tokenOut in l && out.value <= Balance(l, call.tokenOut, call.adapter))
            && (reply.Accepted? ==>
                  && reply.reported == (if call.pool in s.misreports then s.misreports[call.pool] else out.value)
                  && IsFloor(out.value, call.amountIn * rate.num, rate.denom)
                  && Sound(reply.after) && reply.after.Keys == l.Keys
                  && (forall u :: Supply(reply.after, u) == Supply(l, u))
                  && forall u, h :: Balance(reply.after, u, h)
                       == Balance(l, u, h) + Change(call.tokenOut, call.adapter, call.recipient, out.value, u, h))
  {
    var rate := s.RateOf(call.pool);
    var out := CheckedMulDiv(call.amountIn, rate.num, rate.denom);
    if out.Some? {
      MovedEffect(l, call.tokenOut, call.adapter, call.recipient, out.value);
    }
    hide Sound, Supply, IsFloor, Moved;
  }

  /** Which error or trap a refused call ends in. */
  lemma SwapRefusals(s: AdapterState, call: AdapterCall, l: Ledger)
    requires Sound(l)
    ensures var rate := if call.pool in s.rates then s.rates[call.pool] else Rate(1, 1);
            var out := CheckedMulDiv(call.amountIn, rate.num, rate.denom);
            var willing := s.admin.Some? && 0 < call.amountIn && !(call.pool in s.fails && s.fails[call.pool]);
            var funded := willing && call.tokenIn in l && call.amountIn <= Balance(l, call.tokenIn, call.adapter);
            var r := SwapEnds(s, call, l);
            && (r == Err(AdapterError.NotInitialized) <==> s.admin.None?)
            && (r == Err(Failed) <==>
                  s.admin.Some? && (!willing || (call.tokenIn in l && !funded) || (funded && out.None?)))
            && (r == Trap(NoSuchToken) <==> willing && call.tokenIn !in l)
            && (r == Trap(TransferRefused) <==>
                  funded && out.Some? && (call.tokenOut !in l || Balance(l, call.tokenOut, call.adapter) < out.value))
            && (r.Err? ==> r.error == AdapterError.NotInitialized || r.error == Failed)
  {
    var rate := s.RateOf(call.pool);
    var out := CheckedMulDiv(call.amountIn, rate.num, rate.denom);
    if out.Some? {
      MovedEffect(l, call.tokenOut, call.adapter, call.recipient, out.value);
    }
    hide Sound, Supply, Moved;
  }

  class TestAdapter {
    const self: Address
    const tokens: TokenLedger
    var admin: Option<Address>
    var rates: map<Address, Rate>
    var fails: map<Address, bool>
    var misreports: map<Address, i128>

    function State(): AdapterState
      reads this
    {
      AdapterState(admin, rates, fails, misreports)
    }

    constructor (self: Address, tokens: TokenLedger)
      ensures State().Valid() && this.self == self && this.tokens == tokens
      ensures State() == AdapterState(None, map[], map[], map[])
    {
      this.self, this.tokens := self, tokens;
      admin, rates, fails, misreports := None, map[], map[], map[];
    }

    method Initialize(newAdmin: Address) returns (r: Outcome<(), AdapterError>)
      modifies this`admin
      ensures r == if old(admin).Some? then Err(AdapterError.AlreadyInitialized) else Ok(())
      ensures admin == if r.Ok? then Some(newAdmin) else old(admin)
    {
      if admin.Some? {
        return Err(AdapterError.AlreadyInitialized);
      }
      admin := Some(newAdmin);
      return Ok(());
    }

    /** Only the stored admin, named and signing, may configure the adapter. */
    ghost function Gate(env: Env, caller: Address): Outcome<(), AdapterError>
      reads this
    {
      if admin.None? then Err(AdapterError.NotInitialized)
      else if caller != admin.value then Err(AdapterError.NotAuthorized)
      else if caller !in env.signers then Trap(Unauthorized)
      else Ok(())
    }

    method RequireAdmin(env: Env, caller: Address) returns (r: Outcome<(), AdapterError>)
      ensures r == Gate(env, caller)
      ensures r.Ok? <==> admin == Some(caller) && caller in env.signers
      ensures r == Err(AdapterError.NotInitialized) <==> admin.None?
      ensures r == Err(AdapterError.NotAuthorized) <==> admin.Some? && admin != Some(caller)
      ensures r == Trap(Unauthorized) <==> admin == Some(caller) && caller !in env.signers
    {
      if admin.None? {
        return Err(AdapterError.NotInitialized);
      }
      if caller != admin.value {
        return Err(AdapterError.NotAuthorized);
      }
      if caller !in env.signers {
        return Trap(Unauthorized);
      }
      return Ok(());
    }

    method SetRate(env: Env, caller: Address, pool: Address, num: i128, denom: i128)
      returns (r: Outcome<(), AdapterError>)
      modifies this`rates
      ensures old(State()).Valid() ==> State().Valid()
      ensures r == if !Gate(env, caller).Ok? then Gate(env, caller)
                   else if num < 0 || denom <= 0 then Err(InvalidRate) else Ok(())
      ensures rates == if r.Ok? then old(rates)[pool := Rate(num, denom)] else old(rates)
    {
      var _ :- RequireAdmin(env, caller);
      if num < 0 || denom <= 0 {
        return Err(InvalidRate);
      }
      rates := rates[pool := Rate(num, denom)];
      return Ok(());
    }

    method SetFail(env: Env, caller: Address, pool: Address, fail: bool) returns (r: Outcome<(), AdapterError>)
      modifies this`fails
      ensures r == Gate(env, caller)
      ensures fails == if r.Ok? then old(fails)[pool := fail] else old(fails)
    {
      var _ :- RequireAdmin(env, caller);
      fails := fails[pool := fail];
      return Ok(());
    }

    method SetMisreport(env: Env, caller: Address, pool: Address, reported: i128) returns (r: Outcome<(), AdapterError>)
      modifies this`misreports
      ensures r == Gate(env, caller)
      ensures misreports == if r.Ok? then old(misreports)[pool := reported] else old(misreports)
    {
      var _ :- RequireAdmin(env, caller);
      misreports := misreports[pool := reported];
      return Ok(());
    }

    method ClearMisreport(env: Env, caller: Address, pool: Address) returns (r: Outcome<(), AdapterError>)
      modifies this`misreports
      ensures r == Gate(env, caller)
      ensures misreports == if r.Ok? then old(misreports) - {pool} else old(misreports)
    {
      var _ :- RequireAdmin(env, caller);
      misreports := misreports - {pool};
      return Ok(());
    }

    method Swap(call: AdapterCall) returns (r: Outcome<i128, AdapterError>)
      requires call.adapter == self
      modifies tokens
      ensures match SwapEnds(State(), call, old(tokens.books))
              case Ok((reported, after)) => r == Ok(reported) && tokens.books == after
              case Err(e) => r == Err(e) && tokens.books == old(tokens.books)
              case Trap(c) => r == Trap(c) && tokens.books == old(tokens.books)
    {
      if admin.None? {
        return Err(AdapterError.NotInitialized);
      }
      if call.amountIn <= 0 {
        return Err(Failed);
      }
      if call.pool in fails && fails[call.pool] {
        return Err(Failed);
      }
      var held := tokens.GetBalance(call.tokenIn, self);
      if held.None? {
        return Trap(NoSuchToken);
      }
      if held.value < call.amountIn {
        return Err(Failed);
      }
      var rate := if call.pool in rates then rates[call.pool] else Rate(1, 1);
      var out := CheckedMulDiv(call.amountIn, rate.num, rate.denom);
      if out.None? {
        return Err(Failed);
      }
      var delivered := tokens.Transfer(call.tokenOut, self, call.recipient, out.value);
      if !delivered {
        return Trap(TransferRefused);
      }
      return Ok(if call.pool in misreports then misreports[call.pool] else out.value);
    }
  }

  // ---- What a caller of the setters can rely on ----------------------------------

  /** A swap on a pool whose rate was set moves the floor of that price, and reports it unless told otherwise. */
  method SwapAtNewRate(adapter: TestAdapter, env: Env, caller: Address, num: i128, denom: i128, call: AdapterCall)
    returns (done: Outcome<(), AdapterError>, r: Outcome<i128, AdapterError>, ghost out: nat)
    requires call.adapter == adapter.self && Sound(adapter.tokens.books)
    modifies adapter, adapter.tokens
    ensures done.Ok? && r.Ok? ==>
              && IsFloor(out, call.amountIn * num, denom)
              && (call.pool !in adapter.misreports ==> r.value == out)
              && forall u, h :: Balance(adapter.tokens.books, u, h)
                   == old(Balance(adapter.tokens.books, u, h))
                      + Change(call.tokenOut, call.adapter, call.recipient, out, u, h)
  {
    done := adapter.SetRate(env, caller, call.pool, num, denom);
    SwapDelivers(adapter.State(), call, adapter.tokens.books);
    var price := CheckedMulDiv(call.amountIn, num, denom);
    out := if price.Some? then price.value else 0;
    hide Balance, Sound, SwapEnds;
    r := adapter.Swap(call);
  }

  /** A swap on a pool that was told to fail fails and moves nothing; one on a pool that was told not to is not
      refused on that account. */
  method SwapAfterSetFail(adapter: TestAdapter, env: Env, caller: Address, fail: bool, call: AdapterCall)
    returns (done: Outcome<(), AdapterError>, r: Outcome<i128, AdapterError>)
    requires call.adapter == adapter.self && Sound(adapter.tokens.books)
    modifies adapter, adapter.tokens
    ensures done.Ok? && fail ==> r == Err(Failed) && adapter.tokens.books == old(adapter.tokens.books)
    ensures var rate := if call.pool in old(adapter.rates) then old(adapter.rates)[call.pool] else Rate(1, 1);
            var out, l := CheckedMulDiv(call.amountIn, rate.num, rate.denom), old(adapter.tokens.books);
            done.Ok? && !fail ==>
              (r.Ok? <==>
                 && 0 < call.amountIn && call.tokenIn in l && call.amountIn <= Balance(l, call.tokenIn, call.adapter)
                 && out.Some? && call.tokenOut in l && out.value <= Balance(l, call.tokenOut, call.adapter))
  {
    done := adapter.SetFail(env, caller, call.pool, fail);
    SwapDelivers(adapter.State(), call, adapter.tokens.books);
    SwapRefusals(adapter.State(), call, adapter.tokens.books);
    hide Balance, Sound, SwapEnds, Supply, IsFloor;
    r := adapter.Swap(call);
  }

  /** A swap that succeeds on a pool that was told what to report reports that, whatever it delivers. */
  method SwapMisreporting(adapter: TestAdapter, env: Env, caller: Address, reported: i128, call: AdapterCall)
    returns (done: Outcome<(), AdapterError>, r: Outcome<i128, AdapterError>)
    requires call.adapter == adapter.self && Sound(adapter.tokens.books)
    modifies adapter, adapter.tokens
    ensures done.Ok? && r.Ok? ==> r.value == reported
  {
    done := adapter.SetMisreport(env, caller, call.pool, reported);
    SwapDelivers(adapter.State(), call, adapter.tokens.books);
    hide Balance, Sound, SwapEnds, Supply, IsFloor;
    r := adapter.Swap(call);
  }

  /** Once a pool is no longer told what to report, a swap on it that succeeds reports what the recipient receives. */
  method SwapReportingHonestly(adapter: TestAdapter, env: Env, caller: Address, call: AdapterCall)
    returns (done: Outcome<(), AdapterError>, r: Outcome<i128, AdapterError>)
    requires call.adapter == adapter.self && call.recipient != adapter.self && Sound(adapter.tokens.books)
    modifies adapter, adapter.tokens
    ensures done.Ok? && r.Ok? ==>
              r.value == Balance(adapter.tokens.books, call.tokenOut, call.recipient)
                         - old(Balance(adapter.tokens.books, call.tokenOut, call.recipient))
  {
    done := adapter.ClearMisreport(env, caller, call.pool);
    SwapDelivers(adapter.State(), call, adapter.tokens.books);
    hide Balance, Sound, SwapEnds, Supply, IsFloor;
    r := adapter.Swap(call);
  }
}
