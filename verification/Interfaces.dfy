/** Values that cross a contract boundary: routes, errors, events and the adapter interface. */
module Interfaces {
  import opened Machine
  import opened Tokens

  const MAX_HOPS: nat := 5
  const EVENT_SCHEMA_VERSION: u32 := 1

  datatype SwapStep = SwapStep(
    protocol: Symbol, pool: Address, tokenIn: Address, tokenOut: Address, amountOutMin: i128)

  datatype SwapParams = SwapParams(
    trader: Address, tokenIn: Address, tokenOut: Address,
    amountIn: i128, amountOutMin: i128, deadline: u64, path: seq<SwapStep>)

  datatype RouterError =
    | AlreadyInitialized | NotInitialized | NotAuthorized | Paused | Expired | ZeroAmount
    | InvalidMinOut | EmptyPath | TooManyHops | DiscontinuousPath | ProtocolNotFound
    | InsufficientOutput | SwapFailed | InvalidAdmin | Overflow | InsufficientBalance

  datatype RouterEvent =
    | Initialized(admin: Address, version: u32)
    | AdminChanged(oldAdmin: Address, newAdmin: Address, version: u32)
    | PauseChanged(admin: Address, paused: bool, version: u32)
    | ProtocolSet(protocol: Symbol, adapter: Address, version: u32)
    | ProtocolRemoved(protocol: Symbol, version: u32)
    | Upgraded(admin: Address, wasmHash: seq<bv8>, version: u32)
    | HopExecuted(executionId: u64, trader: Address, hopIndex: nat, protocol: Symbol, pool: Address,
                  tokenIn: Address, tokenOut: Address, amountIn: i128, amountOut: i128, version: u32)
    | SwapExecuted(trader: Address, tokenIn: Address, tokenOut: Address, amountIn: i128, amountOut: i128,
                   protocols: seq<Symbol>, executionId: u64, ledger: u32, version: u32)

  datatype AdapterCall = AdapterCall(
    adapter: Address, pool: Address, tokenIn: Address, tokenOut: Address,
    amountIn: i128, amountOutMin: i128, recipient: Address)

  /** An adapter fails, or reports an amount and leaves some ledger behind. */
  datatype AdapterReply = Refused | Accepted(reported: i128, after: Ledger)

  /** What the registered adapters do during one swap: the reply to the call of hop k,
      made in a given ledger. An arbitrary function, so it covers every adapter behaviour. */
  type Venue = (nat, AdapterCall, Ledger) -> AdapterReply

  /** Adapters run on standard tokens: they undeploy none and leave a sound ledger sound. */
  ghost predicate Lawful(venue: Venue) {
    forall k, call, l :: Sound(l) && venue(k, call, l).Accepted? ==>
      Sound(venue(k, call, l).after) && l.Keys <= venue(k, call, l).after.Keys
  }

  ghost predicate Undebited(l: Ledger, after: Ledger, who: Address) {
    forall t :: Balance(l, t, who) <= Balance(after, t, who)
  }

  /** No adapter can debit `who`. */
  ghost predicate Spares(venue: Venue, who: Address) {
    forall k, call, l :: venue(k, call, l).Accepted? ==> Undebited(l, venue(k, call, l).after, who)
  }

  ghost predicate OnlyDelivers(l: Ledger, after: Ledger, who: Address, call: AdapterCall) {
    forall t :: !(who == call.recipient && t == call.tokenOut) ==> Balance(after, t, who) == Balance(l, t, who)
  }

  /** The only change an adapter makes to `who` is a credit of the output token as its recipient. */
  ghost predicate Scoped(venue: Venue, who: Address) {
    && Spares(venue, who)
    && forall k, call, l :: venue(k, call, l).Accepted? ==> OnlyDelivers(l, venue(k, call, l).after, who, call)
  }
}
