/** The donations contract: storage fields updated in place, entry by entry. */
module Donations {
  import opened Machine
  import opened Tokens
  import opened Giving

  class Donations {
    const tokens: TokenLedger
    var admin: Address
    var paused: bool
    var campaignCount: u32
    var receiptCount: u64
    var campaigns: map<u32, Campaign>
    var receipts: map<u64, Receipt>
    var donorTotals: map<(u32, Address), i128>
    var log: seq<GiveEvent>

    ghost function State(): GiveState
      reads this
    {
      GiveState(admin, paused, campaignCount, receiptCount, campaigns, receipts, donorTotals, log)
    }

    ghost function Now(): GiveWorld
      reads this, tokens
    {
      GiveWorld(State(), tokens.books)
    }

    constructor (admin: Address, tokens: TokenLedger)
      ensures this.tokens == tokens && State() == Deployed(admin)
    {
      this.admin, this.tokens := admin, tokens;
      paused, campaignCount, receiptCount := false, 0, 0;
      campaigns, receipts, donorTotals, log := map[], map[], map[], [];
    }

    method SetPaused(env: Env, value: bool) returns (r: Outcome<(), DonationError>)
      modifies this
      ensures r == if admin !in env.signers then Trap(Cause.Unauthorized) else Ok(())
      ensures State() == if r.Ok? then old(State()).(paused := value) else old(State())
    {
      if admin !in env.signers {
        return Trap(Cause.Unauthorized);
      }
      paused := value;
      return Ok(());
    }

    method PutCampaign(c: Campaign)
      modifies this`campaigns
      ensures campaigns == old(campaigns)[c.id := c]
    {
      campaigns := campaigns[c.id := c];
    }

    method CreateCampaign(env: Env, creator: Address, beneficiary: Address, token: Address,
                          title: string, description: string, goal: i128, deadline: u64)
      returns (r: Outcome<u32, DonationError>)
      modifies this
      ensures match Created(old(State()), env,
                            GiveAction.CreateCampaign(creator, beneficiary, token, title, description, goal, deadline))
              case Ok(s) => r == Ok(s.campaignCount) && State() == s
              case Err(e) => r == Err(e) && State() == old(State())
              case Trap(c) => r == Trap(c) && State() == old(State())
      ensures r.Ok? ==>
                && r.value == old(campaignCount) + 1 == campaignCount
                && campaigns == old(campaigns)[r.value :=
                     Campaign(r.value, creator, beneficiary, token, title, description, goal, deadline,
                              0, 0, 0, true, env.timestamp)]
    {
      if paused {
        return Err(DonationError.Paused);
      }
      if creator !in env.signers {
        return Trap(Cause.Unauthorized);
      }
      if goal <= 0 {
        return Err(InvalidGoal);
      }
      if deadline <= env.timestamp {
        return Err(InvalidDeadline);
      }
      if |title| == 0 || |title| > MAX_TITLE_LEN || |description| > MAX_TEXT_LEN {
        return Err(TextTooLong);
      }
      if campaignCount + 1 > U32_MAX {
        return Trap(ArithmeticOverflow);
      }
      var id: u32 := campaignCount + 1;
      PutCampaign(Campaign(id, creator, beneficiary, token, title, description, goal, deadline,
                           0, 0, 0, true, env.timestamp));
      campaignCount := id;
      log := log + [CampaignCreated(id, creator, beneficiary, token, goal, deadline, GIVE_SCHEMA_VERSION)];
      return Ok(id);
    }

    method CloseCampaign(env: Env, caller: Address, id: u32) returns (r: Outcome<(), DonationError>)
      modifies this
      ensures match ClosedBy(old(State()), env, caller, id)
              case Ok(s) => r == Ok(()) && State() == s
              case Err(e) => r == Err(e) && State() == old(State())
              case Trap(c) => r == Trap(c) && State() == old(State())
      ensures r.Ok? ==> caller in env.signers && id in old(campaigns)
                        && (caller == old(campaigns)[id].creator || caller == old(admin)) && old(campaigns)[id].open
    {
      if caller !in env.signers {
        return Trap(Cause.Unauthorized);
      }
      if id !in campaigns {
        return Err(CampaignNotFound);
      }
      var c := campaigns[id];
      if caller != c.creator && caller != admin {
        return Err(DonationError.Unauthorized);
      }
      if !c.open {
        return Err(Closed);
      }
      c := c.(open := false);
      PutCampaign(c);
      log := log + [CampaignClosed(id, c.raised, GIVE_SCHEMA_VERSION)];
      return Ok(());
    }

    /** The checks made before funds move. */
    method Admit(env: Env, donor: Address, campaignId: u32, amount: i128, memo: string)
      returns (r: Outcome<(), DonationError>)
      ensures r == Admitted(State(), env, donor, campaignId, amount, memo)
    {
      if paused {
        return Err(DonationError.Paused);
      }
      if donor !in env.signers {
        return Trap(Cause.Unauthorized);
      }
      if amount <= 0 {
        return Err(InvalidAmount);
      }
      if |memo| > MAX_TEXT_LEN {
        return Err(TextTooLong);
      }
      if campaignId !in campaigns {
        return Err(CampaignNotFound);
      }
      var c := campaigns[campaignId];
      if !c.open {
        return Err(Closed);
      }
      if env.timestamp > c.deadline {
        return Err(CampaignExpired);
      }
      if donor == c.beneficiary {
        return Err(SelfDonation);
      }
      return Ok(());
    }

    /** The body of `donate`: on success storage and ledger are those of `Donated`; otherwise the caller
        undoes whatever was written before the failing update. */
    method Donate(env: Env, donor: Address, campaignId: u32, amount: i128, memo: string)
      returns (r: Outcome<u64, DonationError>)
      modifies this, tokens
      ensures match Donated(old(Now()), env, donor, campaignId, amount, memo)
              case Ok(w) => r == Ok(w.give.receiptCount) && Now() == w
              case Err(e) => r == Err(e)
              case Trap(c) => r == Trap(c)
    {
      hide Moved;
      var _ :- Admit(env, donor, campaignId, amount, memo);
      assert campaignId in campaigns;
      hide Admitted;
      var c := campaigns[campaignId];
      var moved := tokens.Transfer(c.token, donor, c.beneficiary, amount);
      if !moved {
        return Trap(TransferRefused);
      }

      var prev: i128 := if (campaignId, donor) in donorTotals then donorTotals[(campaignId, donor)] else 0;
      if prev == 0 {
        if c.donorCount + 1 > U32_MAX {
          return Trap(ArithmeticOverflow);
        }
        c := c.(donorCount := c.donorCount + 1);
      }
      if !(I128_MIN <= prev + amount <= I128_MAX) {
        return Trap(ArithmeticOverflow);
      }
      donorTotals := donorTotals[(campaignId, donor) := prev + amount];

      if !(I128_MIN <= c.raised + amount <= I128_MAX) {
        return Err(InvalidAmount);
      }
      c := c.(raised := c.raised + amount);
      if c.donationCount + 1 > U32_MAX {
        return Trap(ArithmeticOverflow);
      }
      c := c.(donationCount := c.donationCount + 1);
      PutCampaign(c);

      if receiptCount + 1 > U64_MAX {
        return Trap(ArithmeticOverflow);
      }
      var receiptId: u64 := receiptCount + 1;
      receipts := receipts[receiptId :=
        Receipt(receiptId, campaignId, donor, amount, memo, env.timestamp, env.sequence)];
      receiptCount := receiptId;
      log := log + [DonationMade(campaignId, donor, receiptId, amount, c.raised, GIVE_SCHEMA_VERSION)];
      assert c == Credited(old(State()), donor, campaignId, amount);
      assert State() == Recorded(old(State()), env, donor, campaignId, amount, memo);
      return Ok(receiptId);
    }

    /** One transaction: runs the call and restores storage, events and ledger unless it succeeds. */
    method Invoke(env: Env, a: GiveAction) returns (committed: bool)
      modifies this, tokens
      ensures committed == Gives(old(Now()), env, a).Ok?
      ensures Now() == GiveTransact(old(Now()), env, a)
    {
      var savedAdmin, savedPaused, savedCampaignCount, savedReceiptCount := admin, paused, campaignCount, receiptCount;
      var savedCampaigns, savedReceipts, savedTotals, savedLog := campaigns, receipts, donorTotals, log;
      var savedBooks := tokens.books;
      match a {
        case SetPaused(value) =>
          var r := this.SetPaused(env, value);
          committed := r.Ok?;
        case CreateCampaign(creator, beneficiary, token, title, description, goal, deadline) =>
          var r := this.CreateCampaign(env, creator, beneficiary, token, title, description, goal, deadline);
          committed := r.Ok?;
        case CloseCampaign(caller, id) =>
          var r := this.CloseCampaign(env, caller, id);
          committed := r.Ok?;
        case Donate(donor, id, amount, memo) =>
          var r := this.Donate(env, donor, id, amount, memo);
          committed := r.Ok?;
        case Elsewhere(after) =>
          tokens.books := after;
          committed := true;
      }
      if !committed {
        admin, paused, campaignCount, receiptCount := savedAdmin, savedPaused, savedCampaignCount, savedReceiptCount;
        campaigns, receipts, donorTotals, log := savedCampaigns, savedReceipts, savedTotals, savedLog;
        tokens.books := savedBooks;
      }
    }
  }
}
