/** The donations ledger as transactions on its storage and the token ledger, and runs of them. */
module Giving {
  import opened Machine
  import opened Tokens

  const GIVE_SCHEMA_VERSION: u32 := 1
  const MAX_TITLE_LEN: nat := 80
  const MAX_TEXT_LEN: nat := 280

  datatype DonationError =
    | Unauthorized | Paused | InvalidAmount | InvalidGoal | InvalidDeadline | CampaignNotFound | Closed
    | CampaignExpired | TextTooLong | SelfDonation

  datatype Campaign = Campaign(
    id: u32, creator: Address, beneficiary: Address, token: Address, title: string, description: string,
    goal: i128, deadline: u64, raised: i128, donorCount: u32, donationCount: u32, open: bool, createdAt: u64)

  datatype Receipt = Receipt(
    id: u64, campaignId: u32, donor: Address, amount: i128, memo: string, timestamp: u64, ledger: u32)

  datatype GiveEvent =
    | CampaignCreated(campaignId: u32, creator: Address, beneficiary: Address, token: Address,
                      goal: i128, deadline: u64, version: u32)
    | DonationMade(campaignId: u32, donor: Address, receiptId: u64, amount: i128, raised: i128, version: u32)
    | CampaignClosed(campaignId: u32, raised: i128, version: u32)

  datatype GiveState = GiveState(
    admin: Address, paused: bool, campaignCount: u32, receiptCount: u64,
    campaigns: map<u32, Campaign>, receipts: map<u64, Receipt>,
    donorTotals: map<(u32, Address), i128>, log: seq<GiveEvent>)
  {
    function DonorTotal(id: u32, donor: Address): i128 {
      if (id, donor) in donorTotals then donorTotals[(id, donor)] else 0
    }
  }

  datatype GiveWorld = GiveWorld(give: GiveState, ledger: Ledger)

  datatype GiveAction =
    | SetPaused(paused: bool)
    | CreateCampaign(creator: Address, beneficiary: Address, token: Address, title: string, description: string,
                     goal: i128, deadline: u64)
    | CloseCampaign(caller: Address, id: u32)
    | Donate(donor: Address, campaignId: u32, amount: i128, memo: string)
    | Elsewhere(after: Ledger)

  type Given = Outcome<GiveWorld, DonationError>

  /** Storage right after deployment. */
  function Deployed(admin: Address): GiveState {
    GiveState(admin, false, 0, 0, map[], map[], map[], [])
  }

  // ---- Campaigns -------------------------------------------------------------------

  ghost function NewCampaign(id: u32, env: Env, a: GiveAction): Campaign
    requires a.CreateCampaign?
  {
    Campaign(id, a.creator, a.beneficiary, a.token, a.title, a.description, a.goal, a.deadline,
             0, 0, 0, true, env.timestamp)
  }

  ghost function Created(s: GiveState, env: Env, a: GiveAction): Outcome<GiveState, DonationError>
    requires a.CreateCampaign?
  {
    if s.paused then Err(DonationError.Paused)
    else if a.creator !in env.signers then Trap(Cause.Unauthorized)
    else if a.goal <= 0 then Err(InvalidGoal)
    else if a.deadline <= env.timestamp then Err(InvalidDeadline)
    else if a.title == "" || |a.title| > MAX_TITLE_LEN || |a.description| > MAX_TEXT_LEN then Err(TextTooLong)
    else if s.campaignCount == U32_MAX then Trap(ArithmeticOverflow)
    else
      var id := s.campaignCount + 1;
      Ok(s.(campaignCount := id,
            campaigns := s.campaigns[id := NewCampaign(id, env, a)],
            log := s.log + [CampaignCreated(id, a.creator, a.beneficiary, a.token, a.goal, a.deadline,
                                            GIVE_SCHEMA_VERSION)]))
  }

  ghost function ClosedBy(s: GiveState, env: Env, caller: Address, id: u32): Outcome<GiveState, DonationError> {
    if caller !in env.signers then Trap(Cause.Unauthorized)
    else if id !in s.campaigns then Err(CampaignNotFound)
    else
      var c := s.campaigns[id];
      if caller != c.creator && caller != s.admin then Err(DonationError.Unauthorized)
      else if !c.open then Err(Closed)
      else Ok(s.(campaigns := s.campaigns[c.id := c.(open := false)],
                 log := s.log + [CampaignClosed(id, c.raised, GIVE_SCHEMA_VERSION)]))
  }

  // ---- Donations -------------------------------------------------------------------

  /** The checks a donation passes before funds move. */
  ghost function Admitted(s: GiveState, env: Env, donor: Address, id: u32, amount: i128, memo: string)
    : Outcome<(), DonationError>
  {
    if s.paused then Err(DonationError.Paused)
    else if donor !in env.signers then Trap(Cause.Unauthorized)
    else if amount <= 0 then Err(InvalidAmount)
    else if |memo| > MAX_TEXT_LEN then Err(TextTooLong)
    else if id !in s.campaigns then Err(CampaignNotFound)
    else if !s.campaigns[id].open then Err(Closed)
    else if env.timestamp > s.campaigns[id].deadline then Err(CampaignExpired)
    else if donor == s.campaigns[id].beneficiary then Err(SelfDonation)
    else Ok(())
  }

  /** The running totals in the order they are updated: the first that overflows decides how the call ends. */
  ghost function Countable(s: GiveState, donor: Address, id: u32, amount: i128): Outcome<(), DonationError>
    requires id in s.campaigns
  {
    var c, prev := s.campaigns[id], s.DonorTotal(id, donor);
    if prev == 0 && c.donorCount == U32_MAX then Trap(ArithmeticOverflow)
    else if !(I128_MIN <= prev + amount <= I128_MAX) then Trap(ArithmeticOverflow)
    else if !(I128_MIN <= c.raised + amount <= I128_MAX) then Err(InvalidAmount)
    else if c.donationCount == U32_MAX then Trap(ArithmeticOverflow)
    else if s.receiptCount == U64_MAX then Trap(ArithmeticOverflow)
    else Ok(())
  }

  ghost function NewReceipt(s: GiveState, env: Env, donor: Address, id: u32, amount: i128, memo: string): Receipt
    requires s.receiptCount < U64_MAX
  {
    Receipt(s.receiptCount + 1, id, donor, amount, memo, env.timestamp, env.sequence)
  }

  /** A campaign with one more donation on its totals. */
  ghost function Credited(s: GiveState, donor: Address, id: u32, amount: i128): Campaign
    requires id in s.campaigns && Countable(s, donor, id, amount).Ok?
  {
    var c := s.campaigns[id];
    c.(raised := c.raised + amount, donationCount := c.donationCount + 1,
       donorCount := if s.DonorTotal(id, donor) == 0 then c.donorCount + 1 else c.donorCount)
  }

  ghost function Recorded(s: GiveState, env: Env, donor: Address, id: u32, amount: i128, memo: string): GiveState
    requires id in s.campaigns && Countable(s, donor, id, amount).Ok?
  {
    var c, r := Credited(s, donor, id, amount), NewReceipt(s, env, donor, id, amount, memo);
    s.(donorTotals := s.donorTotals[(id, donor) := s.DonorTotal(id, donor) + amount],
       campaigns := s.campaigns[c.id := c],
       receipts := s.receipts[r.id := r], receiptCount := r.id,
       log := s.log + [DonationMade(id, donor, r.id, amount, c.raised, GIVE_SCHEMA_VERSION)])
  }

  ghost function Donated(w: GiveWorld, env: Env, donor: Address, id: u32, amount: i128, memo: string): Given {
    var s := w.give;
    var _ :- Admitted(s, env, donor, id, amount, memo);
    var moved := Moved(w.ledger, s.campaigns[id].token, donor, s.campaigns[id].beneficiary, amount);
    if moved.None? then Trap(TransferRefused)
    else
      var _ :- Countable(s, donor, id, amount);
      Ok(GiveWorld(Recorded(s, env, donor, id, amount, memo), moved.value))
  }

  // ---- Transactions and runs -------------------------------------------------------

  ghost function Gives(w: GiveWorld, env: Env, a: GiveAction): Given {
    match a
    case SetPaused(paused) =>
      if w.give.admin !in env.signers then Trap(Cause.Unauthorized) else Ok(w.(give := w.give.(paused := paused)))
    case CreateCampaign(_, _, _, _, _, _, _) =>
      var s :- Created(w.give, env, a);
      Ok(w.(give := s))
    case CloseCampaign(caller, id) =>
      var s :- ClosedBy(w.give, env, caller, id);
      Ok(w.(give := s))
    case Donate(donor, id, amount, memo) => Donated(w, env, donor, id, amount, memo)
    case Elsewhere(after) => Ok(w.(ledger := after))
  }

  /** The host commits a call that succeeds and undoes every effect of one that does not. */
  ghost function GiveTransact(w: GiveWorld, env: Env, a: GiveAction): GiveWorld {
    var r := Gives(w, env, a);
    if r.Ok? then r.value else w
  }

  type GiveHistory = seq<(Env, GiveAction)>

  ghost function GiveRun(admin: Address, ledger: Ledger, h: GiveHistory): GiveWorld {
    if h == [] then GiveWorld(Deployed(admin), ledger) else
    GiveTransact(GiveRun(admin, ledger, h[..|h| - 1]), h[|h| - 1].0, h[|h| - 1].1)
  }
}
