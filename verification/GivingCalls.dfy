/** The donations contract's storage, events and tokens, as the calls that committed made them. */
module GivingCalls {
  import opened Machine
  import opened Tokens
  import opened Giving
  import opened GivingBooks
  import opened GivingHistory

  // ---- When a call commits, and what it answers otherwise ---------------------------

  /** Exactly when a campaign is created, and which error or trap is answered otherwise. */
  lemma CreateDecides(w: GiveWorld, env: Env, a: GiveAction)
    requires a.CreateCampaign?
    ensures var r, s := Gives(w, env, a), w.give;
            var signed := !s.paused && a.creator in env.signers;
            var aimed := signed && 0 < a.goal;
            var timely := aimed && env.timestamp < a.deadline;
            var told := timely && 1 <= |a.title| <= MAX_TITLE_LEN && |a.description| <= MAX_TEXT_LEN;
            && (r.Ok? <==> told && s.campaignCount < U32_MAX)
            && (r == Err(DonationError.Paused) <==> s.paused)
            && (r == Trap(Cause.Unauthorized) <==> !s.paused && a.creator !in env.signers)
            && (r == Err(InvalidGoal) <==> signed && a.goal <= 0)
            && (r == Err(InvalidDeadline) <==> aimed && a.deadline <= env.timestamp)
            && (r == Err(TextTooLong) <==> timely && !told)
            && (r == Trap(ArithmeticOverflow) <==> told && s.campaignCount == U32_MAX)
            && (!r.Ok? ==> GiveTransact(w, env, a) == w)
  {
  }

  /** Exactly when a campaign is closed, and which error or trap is answered otherwise. */
  lemma CloseDecides(w: GiveWorld, env: Env, caller: Address, id: u32)
    ensures var r, s := Gives(w, env, CloseCampaign(caller, id)), w.give;
            var found := caller in env.signers && id in s.campaigns;
            var entitled := found && (caller == s.campaigns[id].creator || caller == s.admin);
            && (r.Ok? <==> entitled && s.campaigns[id].open)
            && (r == Trap(Cause.Unauthorized) <==> caller !in env.signers)
            && (r == Err(CampaignNotFound) <==> caller in env.signers && id !in s.campaigns)
            && (r == Err(DonationError.Unauthorized) <==> found && !entitled)
            && (r == Err(Closed) <==> entitled && !s.campaigns[id].open)
            && (!r.Ok? ==> GiveTransact(w, env, CloseCampaign(caller, id)) == w)
  {
  }

  /** The pause flag is set exactly under the admin's signature. */
  lemma PauseDecides(w: GiveWorld, env: Env, paused: bool)
    ensures var r := Gives(w, env, SetPaused(paused));
            && (r.Ok? <==> w.give.admin in env.signers)
            && (r == Trap(Cause.Unauthorized) <==> w.give.admin !in env.signers)
            && (!r.Ok? ==> GiveTransact(w, env, SetPaused(paused)) == w)
  {
  }

  /** Everything that is checked before a donation moves funds. */
  ghost predicate Welcome(s: GiveState, env: Env, donor: Address, id: u32, amount: i128, memo: string) {
    && !s.paused && donor in env.signers && 0 < amount && |memo| <= MAX_TEXT_LEN
    && id in s.campaigns && s.campaigns[id].open
    && env.timestamp <= s.campaigns[id].deadline && donor != s.campaigns[id].beneficiary
  }

  /** Which error or trap a donation that fails a check answers: that of the first check it fails. */
  lemma DonateRefusals(w: GiveWorld, env: Env, donor: Address, id: u32, amount: i128, memo: string)
    ensures var r, s := Gives(w, env, Donate(donor, id, amount, memo)), w.give;
            var signed := !s.paused && donor in env.signers;
            var told := signed && 0 < amount && |memo| <= MAX_TEXT_LEN;
            var open := told && id in s.campaigns && s.campaigns[id].open;
            && (r == Err(DonationError.Paused) <==> s.paused)
            && (r == Trap(Cause.Unauthorized) <==> !s.paused && donor !in env.signers)
            && (signed && amount <= 0 ==> r == Err(InvalidAmount))
            && (r == Err(TextTooLong) <==> signed && 0 < amount && |memo| > MAX_TEXT_LEN)
            && (r == Err(CampaignNotFound) <==> told && id !in s.campaigns)
            && (r == Err(Closed) <==> told && id in s.campaigns && !s.campaigns[id].open)
            && (r == Err(CampaignExpired) <==> open && s.campaigns[id].deadline < env.timestamp)
            && (r == Err(SelfDonation) <==>
                  open && env.timestamp <= s.campaigns[id].deadline && donor == s.campaigns[id].beneficiary)
            && (r.Ok? ==> Welcome(s, env, donor, id, amount, memo))
            && (!r.Ok? ==> GiveTransact(w, env, Donate(donor, id, amount, memo)) == w)
  {
    hide Moved, Recorded;
  }

  /** How a donation that passes the checks ends over a sound ledger: the transfer decides first, then the totals. */
  lemma DonateEnds(w: GiveWorld, env: Env, donor: Address, id: u32, amount: i128, memo: string)
    requires Sound(w.ledger) && Welcome(w.give, env, donor, id, amount, memo)
    ensures var r, s := Gives(w, env, Donate(donor, id, amount, memo)), w.give;
            var c, total := s.campaigns[id], s.DonorTotal(id, donor);
            var paid := c.token in w.ledger && amount <= Balance(w.ledger, c.token, donor);
            var crowded := total == 0 && c.donorCount == U32_MAX;
            var fits := !crowded && total + amount <= I128_MAX;
            var counts := c.donationCount < U32_MAX && s.receiptCount < U64_MAX;
            && (r == Trap(TransferRefused) <==> !paid)
            && (r == Err(InvalidAmount) <==> paid && fits && c.raised + amount > I128_MAX)
            && (r == Trap(ArithmeticOverflow) <==>
                  paid && (!fits || (c.raised + amount <= I128_MAX && !counts)))
            && (r.Ok? <==> paid && fits && c.raised + amount <= I128_MAX && counts)
  {
    MovedEffect(w.ledger, w.give.campaigns[id].token, donor, w.give.campaigns[id].beneficiary, amount);
    hide Moved, Sound, Balance, Recorded;
  }

  /** A transaction closes an open campaign exactly when it is a close of it, signed by its caller, who is the creator
      or the admin. */
  lemma ClosesExactly(w: GiveWorld, env: Env, a: GiveAction, id: u32)
    requires Numbered(w.give) && id in w.give.campaigns && w.give.campaigns[id].open
    ensures var s, n := w.give, GiveTransact(w, env, a).give;
            && id in n.campaigns
            && (!n.campaigns[id].open <==>
                  && a.CloseCampaign? && a.id == id && a.caller in env.signers
                  && (a.caller == s.campaigns[id].creator || a.caller == s.admin))
  {
    hide Moved;
  }

  // ---- Storage ------------------------------------------------------------------------

  /** The calls of a history that committed, in order. */
  ghost function Committed(admin: Address, ledger: Ledger, h: GiveHistory): GiveHistory {
    if h == [] then [] else
    var t, call := h[..|h| - 1], h[|h| - 1];
    Committed(admin, ledger, t) + (if Gives(GiveRun(admin, ledger, t), call.0, call.1).Ok? then [call] else [])
  }

  ghost function Creations(calls: GiveHistory): (r: GiveHistory)
    ensures forall i :: 0 <= i < |r| ==> r[i].1.CreateCampaign?
  {
    if calls == [] then [] else
    Creations(calls[..|calls| - 1]) + (if calls[|calls| - 1].1.CreateCampaign? then [calls[|calls| - 1]] else [])
  }

  ghost function Donatings(calls: GiveHistory): (r: GiveHistory)
    ensures forall i :: 0 <= i < |r| ==> r[i].1.Donate?
  {
    if calls == [] then [] else
    Donatings(calls[..|calls| - 1]) + (if calls[|calls| - 1].1.Donate? then [calls[|calls| - 1]] else [])
  }

  ghost predicate ClosedIn(calls: GiveHistory, id: u32) {
    exists i :: 0 <= i < |calls| && calls[i].1.CloseCampaign? && calls[i].1.id == id
  }

  /** What the calls gave to a campaign. */
  ghost function RaisedIn(calls: GiveHistory, id: u32): int {
    if calls == [] then 0 else
    var a := calls[|calls| - 1].1;
    RaisedIn(calls[..|calls| - 1], id) + (if a.Donate? && a.campaignId == id then a.amount else 0)
  }

  ghost function PausedIn(calls: GiveHistory): bool {
    if calls == [] then false else
    var a := calls[|calls| - 1].1;
    if a.SetPaused? then a.paused else PausedIn(calls[..|calls| - 1])
  }

  /** The campaign is as its creator asked, made when asked, open unless closed since, and has raised what was given. */
  ghost predicate AsAsked(c: Campaign, id: u32, call: (Env, GiveAction), calls: GiveHistory) {
    && call.1.CreateCampaign? && c.id == id
    && c.creator == call.1.creator && c.beneficiary == call.1.beneficiary && c.token == call.1.token
    && c.title == call.1.title && c.description == call.1.description
    && c.goal == call.1.goal && c.deadline == call.1.deadline && c.createdAt == call.0.timestamp
    && c.open == !ClosedIn(calls, id)
    && c.raised == RaisedIn(calls, id)
  }

  /** The receipt is for the donation as made. */
  ghost predicate AsGiven(r: Receipt, id: u64, call: (Env, GiveAction)) {
    && call.1.Donate?
    && r == Receipt(id, call.1.campaignId, call.1.donor, call.1.amount, call.1.memo, call.0.timestamp, call.0.sequence)
  }

  /** A close or donation names one of the first n campaigns. */
  ghost predicate NamesWithin(a: GiveAction, n: nat) {
    (a.CloseCampaign? ==> 1 <= a.id <= n) && (a.Donate? ==> 1 <= a.campaignId <= n)
  }

  /** The call is about campaign `id`, if about any. */
  ghost predicate OnlyNames(a: GiveAction, id: u32) {
    (a.CloseCampaign? ==> a.id == id) && (a.Donate? ==> a.campaignId == id)
  }

  ghost predicate CampaignsAsAsked(s: GiveState, calls: GiveHistory) {
    && (forall id: u32 :: id in s.campaigns <==> 1 <= id <= |Creations(calls)|)
    && (forall id :: id in s.campaigns ==> AsAsked(s.campaigns[id], id, Creations(calls)[id - 1], calls))
    && forall i :: 0 <= i < |calls| ==> NamesWithin(calls[i].1, |Creations(calls)|)
  }

  ghost predicate ReceiptsAsGiven(s: GiveState, calls: GiveHistory) {
    && (forall id: u64 :: id in s.receipts <==> 1 <= id <= |Donatings(calls)|)
    && (forall id :: id in s.receipts ==> AsGiven(s.receipts[id], id, Donatings(calls)[id - 1]))
  }

  ghost predicate Follows(admin: Address, s: GiveState, calls: GiveHistory) {
    && s.admin == admin && s.paused == PausedIn(calls)
    && s.campaignCount == |Creations(calls)| && s.receiptCount == |Donatings(calls)|
    && CampaignsAsAsked(s, calls) && ReceiptsAsGiven(s, calls)
  }

  /** How one more call changes what the calls say. */
  lemma OneMoreCall(calls: GiveHistory, call: (Env, GiveAction), id: u32)
    ensures var c := calls + [call];
            && Creations(c) == Creations(calls) + (if call.1.CreateCampaign? then [call] else [])
            && Donatings(c) == Donatings(calls) + (if call.1.Donate? then [call] else [])
            && PausedIn(c) == (if call.1.SetPaused? then call.1.paused else PausedIn(calls))
            && (ClosedIn(c, id) <==> ClosedIn(calls, id) || (call.1.CloseCampaign? && call.1.id == id))
            && RaisedIn(c, id) == RaisedIn(calls, id)
                 + (if call.1.Donate? && call.1.campaignId == id then call.1.amount else 0)
  {
    var c := calls + [call];
    assert c[..|c| - 1] == calls;
    assert c[|calls|] == call;
    assert forall i :: 0 <= i < |calls| ==> c[i] == calls[i];
  }

  lemma {:induction false} Unnamed(calls: GiveHistory, id: u32)
    requires 1 <= id && forall i :: 0 <= i < |calls| ==> NamesWithin(calls[i].1, id - 1)
    ensures RaisedIn(calls, id) == 0 && !ClosedIn(calls, id)
  {
    if calls != [] {
      Unnamed(calls[..|calls| - 1], id);
    }
  }

  lemma RecordStays(c: Campaign, k: u32, creation: (Env, GiveAction), calls: GiveHistory,
        call: (Env, GiveAction), id: u32)
    requires AsAsked(c, k, creation, calls) && OnlyNames(call.1, id) && k != id
    ensures AsAsked(c, k, creation, calls + [call])
  {
    OneMoreCall(calls, call, k);
    hide ClosedIn, RaisedIn;
  }

  lemma NamesGrow(calls: GiveHistory, call: (Env, GiveAction), n: nat, m: nat)
    requires forall i :: 0 <= i < |calls| ==> NamesWithin(calls[i].1, n)
    requires n <= m && NamesWithin(call.1, m)
    ensures forall i :: 0 <= i < |calls + [call]| ==> NamesWithin((calls + [call])[i].1, m)
  {
  }

  /** One call that is about one campaign, and leaves that campaign's record as it should be, keeps the campaigns as
      asked. */
  lemma CampaignsFollow(s: GiveState, n: GiveState, calls: GiveHistory, call: (Env, GiveAction), id: u32, c: Campaign)
    requires CampaignsAsAsked(s, calls) && OnlyNames(call.1, id) && n.campaigns == s.campaigns[id := c]
    requires call.1.CreateCampaign? ==> id == |Creations(calls)| + 1 && AsAsked(c, id, call, calls + [call])
    requires !call.1.CreateCampaign? ==> id in s.campaigns && AsAsked(c, id, Creations(calls)[id - 1], calls + [call])
    ensures CampaignsAsAsked(n, calls + [call])
  {
    hide AsAsked, Creations;
    OneMoreCall(calls, call, id);
    NamesGrow(calls, call, |Creations(calls)|, |Creations(calls + [call])|);
    hide NamesWithin;
    forall k | k in n.campaigns
      ensures AsAsked(n.campaigns[k], k, Creations(calls + [call])[k - 1], calls + [call])
    {
      if k != id {
        RecordStays(s.campaigns[k], k, Creations(calls)[k - 1], calls, call, id);
      }
    }
  }

  lemma CreationFollows(admin: Address, s: GiveState, env: Env, a: GiveAction, calls: GiveHistory)
    requires Follows(admin, s, calls) && a.CreateCampaign? && Created(s, env, a).Ok?
    ensures Follows(admin, Created(s, env, a).value, calls + [(env, a)])
  {
    hide Creations, Donatings, ClosedIn, RaisedIn, PausedIn, ReceiptsAsGiven;
    var n, id, call := Created(s, env, a).value, s.campaignCount + 1, (env, a);
    Unnamed(calls, id);
    OneMoreCall(calls, call, id);
    var c := NewCampaign(id, env, a);
    assert AsAsked(c, id, call, calls + [call]);
    assert n == s.(campaignCount := id, campaigns := s.campaigns[id := c], log := n.log);
    hide AsAsked, CampaignsAsAsked, Created, NewCampaign, NamesWithin;
    CampaignsFollow(s, n, calls, call, id, c);
    ReceiptsStay(s, n, calls, call);
  }

  lemma DonationFollows(admin: Address, w: GiveWorld, env: Env, a: GiveAction, calls: GiveHistory)
    requires Follows(admin, w.give, calls) && a.Donate?
    requires Donated(w, env, a.donor, a.campaignId, a.amount, a.memo).Ok?
    ensures Follows(admin, Donated(w, env, a.donor, a.campaignId, a.amount, a.memo).value.give, calls + [(env, a)])
  {
    var s, n := w.give, Donated(w, env, a.donor, a.campaignId, a.amount, a.memo).value.give;
    var id, call := a.campaignId, (env, a);
    assert n == Recorded(s, env, a.donor, id, a.amount, a.memo);
    assert AsAsked(s.campaigns[id], id, Creations(calls)[id - 1], calls);
    hide Donated, Moved;
    OneMoreCall(calls, call, id);
    hide Creations, Donatings, ClosedIn, RaisedIn, PausedIn;
    CampaignsFollow(s, n, calls, call, id, Credited(s, a.donor, id, a.amount));
    hide AsAsked, CampaignsAsAsked;
    ReceiptFollows(s, n, call, calls, NewReceipt(s, env, a.donor, id, a.amount, a.memo));
    hide ReceiptsAsGiven;
  }

  lemma ReceiptsStay(s: GiveState, n: GiveState, calls: GiveHistory, call: (Env, GiveAction))
    requires ReceiptsAsGiven(s, calls) && !call.1.Donate? && n.receipts == s.receipts
    ensures ReceiptsAsGiven(n, calls + [call])
  {
    OneMoreCall(calls, call, 0);
    hide Donatings, AsGiven;
  }

  lemma ReceiptFollows(s: GiveState, n: GiveState, call: (Env, GiveAction), calls: GiveHistory, r: Receipt)
    requires ReceiptsAsGiven(s, calls) && |Donatings(calls)| == s.receiptCount < U64_MAX
    requires call.1.Donate? && AsGiven(r, s.receiptCount + 1, call)
    requires n.receipts == s.receipts[s.receiptCount + 1 := r]
    ensures ReceiptsAsGiven(n, calls + [call])
  {
    OneMoreCall(calls, call, 0);
    hide Donatings, AsGiven;
  }

  lemma ClosureFollows(admin: Address, s: GiveState, env: Env, a: GiveAction, calls: GiveHistory)
    requires Follows(admin, s, calls) && a.CloseCampaign? && ClosedBy(s, env, a.caller, a.id).Ok?
    ensures Follows(admin, ClosedBy(s, env, a.caller, a.id).value, calls + [(env, a)])
  {
    var n, call := ClosedBy(s, env, a.caller, a.id).value, (env, a);
    assert AsAsked(s.campaigns[a.id], a.id, Creations(calls)[a.id - 1], calls);
    OneMoreCall(calls, call, a.id);
    hide Creations, Donatings, ClosedIn, RaisedIn, PausedIn;
    CampaignsFollow(s, n, calls, call, a.id, s.campaigns[a.id].(open := false));
    hide AsAsked, CampaignsAsAsked;
  }

  lemma PauseFollows(admin: Address, s: GiveState, n: GiveState, call: (Env, GiveAction), calls: GiveHistory)
    requires Follows(admin, s, calls) && (call.1.SetPaused? || call.1.Elsewhere?)
    requires n == if call.1.SetPaused? then s.(paused := call.1.paused) else s
    ensures Follows(admin, n, calls + [call])
  {
    OneMoreCall(calls, call, 0);
    hide Creations, Donatings, ClosedIn, RaisedIn, PausedIn, AsAsked;
    forall k | k in n.campaigns
      ensures AsAsked(n.campaigns[k], k, Creations(calls + [call])[k - 1], calls + [call])
    {
      RecordStays(s.campaigns[k], k, Creations(calls)[k - 1], calls, call, 0);
    }
    NamesGrow(calls, call, |Creations(calls)|, |Creations(calls)|);
  }

  lemma StepFollows(admin: Address, w: GiveWorld, env: Env, a: GiveAction, calls: GiveHistory)
    requires Follows(admin, w.give, calls) && Gives(w, env, a).Ok?
    ensures Follows(admin, GiveTransact(w, env, a).give, calls + [(env, a)])
  {
    hide Follows, Donated, Created, ClosedBy;
    match a
    case Donate(_, _, _, _) => DonationFollows(admin, w, env, a, calls);
    case CreateCampaign(_, _, _, _, _, _, _) => CreationFollows(admin, w.give, env, a, calls);
    case CloseCampaign(_, _) => ClosureFollows(admin, w.give, env, a, calls);
    case _ => PauseFollows(admin, w.give, GiveTransact(w, env, a).give, (env, a), calls);
  }

  /** After any history every campaign has the parties, token, texts, goal and deadline that the create call of its
      number asked for, was created when that call was made, is open unless a committed call closed it, and has raised
      what the committed donations gave it; every receipt has the donor, campaign, amount, memo, time and ledger
      sequence of the donation of its number; the contract is paused as told last, by the admin it was deployed with. */
  lemma {:induction false} StorageFollowsCalls(admin: Address, ledger: Ledger, h: GiveHistory)
    ensures Follows(admin, GiveRun(admin, ledger, h).give, Committed(admin, ledger, h))
  {
    if h != [] {
      var t, call := h[..|h| - 1], h[|h| - 1];
      StorageFollowsCalls(admin, ledger, t);
      var w, c := GiveRun(admin, ledger, t), Committed(admin, ledger, t);
      assert c + [] == c;
      hide Follows, Gives;
      if Gives(w, call.0, call.1).Ok? {
        StepFollows(admin, w, call.0, call.1, c);
      }
    }
  }

  // ---- Tokens -------------------------------------------------------------------------

  /** What the committed donations among the calls gave `who` of `t`, as beneficiary in the create call of the campaign
      they name, less what `who` gave by them. */
  ghost function NetOf(calls: GiveHistory, t: Address, who: Address): int {
    if calls == [] then 0 else
    var before, a := calls[..|calls| - 1], calls[|calls| - 1].1;
    NetOf(before, t, who) +
    if a.Donate? && 1 <= a.campaignId <= |Creations(before)| && Creations(before)[a.campaignId - 1].1.token == t
    then (if who == Creations(before)[a.campaignId - 1].1.beneficiary then a.amount else 0)
         - (if who == a.donor then a.amount else 0)
    else 0
  }

  lemma DonationPays(admin: Address, w: GiveWorld, env: Env, a: GiveAction, calls: GiveHistory,
        t: Address, who: Address)
    requires Follows(admin, w.give, calls) && a.Donate?
    requires Donated(w, env, a.donor, a.campaignId, a.amount, a.memo).Ok?
    ensures Balance(Donated(w, env, a.donor, a.campaignId, a.amount, a.memo).value.ledger, t, who)
         == Balance(w.ledger, t, who) + NetOf(calls + [(env, a)], t, who) - NetOf(calls, t, who)
  {
    assert (calls + [(env, a)])[..|calls|] == calls;
    var id := a.campaignId;
    var c := w.give.campaigns[id];
    assert AsAsked(c, id, Creations(calls)[id - 1], calls);
    assert c.token == Creations(calls)[id - 1].1.token && c.beneficiary == Creations(calls)[id - 1].1.beneficiary;
    assert 1 <= id <= |Creations(calls)|;
    MovedBalances(w.ledger, c.token, a.donor, c.beneficiary, a.amount);
    hide Moved, Balance, Creations, Follows, AsAsked, Recorded, Countable, Admitted;
  }

  lemma StepPays(admin: Address, w: GiveWorld, env: Env, a: GiveAction, calls: GiveHistory, t: Address, who: Address)
    requires Follows(admin, w.give, calls) && !a.Elsewhere? && Gives(w, env, a).Ok?
    ensures Balance(GiveTransact(w, env, a).ledger, t, who)
         == Balance(w.ledger, t, who) + NetOf(calls + [(env, a)], t, who) - NetOf(calls, t, who)
  {
    hide Balance, Follows, Donated, Created, ClosedBy;
    if a.Donate? {
      DonationPays(admin, w, env, a, calls, t, who);
    } else {
      assert (calls + [(env, a)])[..|calls|] == calls;
    }
  }

  /** When nothing else moves tokens, the change in what anyone holds of any token is what the committed donations paid
      them, as the beneficiary named when the campaign was created, less what they gave by them. */
  lemma {:induction false} TokensFollowCalls(admin: Address, start: Ledger, h: GiveHistory, t: Address, who: Address)
    requires Undisturbed(h)
    ensures Balance(GiveRun(admin, start, h).ledger, t, who)
         == Balance(start, t, who) + NetOf(Committed(admin, start, h), t, who)
  {
    if h != [] {
      var before, call := h[..|h| - 1], h[|h| - 1];
      TokensFollowCalls(admin, start, before, t, who);
      StorageFollowsCalls(admin, start, before);
      var w, c := GiveRun(admin, start, before), Committed(admin, start, before);
      assert c + [] == c;
      hide Follows, Gives, NetOf, Balance;
      if Gives(w, call.0, call.1).Ok? {
        StepPays(admin, w, call.0, call.1, c, t, who);
      }
    }
  }

  // ---- Events --------------------------------------------------------------------------

  /** The event a committed call leaves, with the totals as they are after it. */
  ghost predicate Tells(e: GiveEvent, before: GiveHistory, a: GiveAction) {
    match a
    case CreateCampaign(creator, beneficiary, token, _, _, goal, deadline) =>
      && e.CampaignCreated? && e.campaignId == |Creations(before)| + 1 && e.creator == creator
      && e.beneficiary == beneficiary && e.token == token && e.goal == goal && e.deadline == deadline
      && e.version == GIVE_SCHEMA_VERSION
    case Donate(donor, id, amount, _) =>
      && e.DonationMade? && e.campaignId == id && e.donor == donor && e.receiptId == |Donatings(before)| + 1
      && e.amount == amount && e.raised == RaisedIn(before, id) + amount && e.version == GIVE_SCHEMA_VERSION
    case CloseCampaign(_, id) =>
      e.CampaignClosed? && e.campaignId == id && e.raised == RaisedIn(before, id) && e.version == GIVE_SCHEMA_VERSION
    case _ => false
  }

  /** The log holds one event for each call that creates, donates or closes, in order, and nothing else. */
  ghost predicate LogTells(log: seq<GiveEvent>, calls: GiveHistory)
    decreases |calls|
  {
    if calls == [] then log == [] else
    var before, a := calls[..|calls| - 1], calls[|calls| - 1].1;
    if a.SetPaused? || a.Elsewhere? then LogTells(log, before)
    else log != [] && Tells(log[|log| - 1], before, a) && LogTells(log[..|log| - 1], before)
  }

  /** What the contract's totals are, the calls say. */
  lemma TotalsFollow(admin: Address, s: GiveState, calls: GiveHistory, id: u32)
    requires Follows(admin, s, calls) && id in s.campaigns
    ensures s.campaigns[id].id == id && s.campaigns[id].raised == RaisedIn(calls, id)
    ensures s.campaignCount == |Creations(calls)| && s.receiptCount == |Donatings(calls)|
  {
    assert AsAsked(s.campaigns[id], id, Creations(calls)[id - 1], calls);
  }

  lemma OneMoreTold(log: seq<GiveEvent>, e: GiveEvent, calls: GiveHistory, call: (Env, GiveAction))
    requires LogTells(log, calls) && Tells(e, calls, call.1)
    ensures LogTells(log + [e], calls + [call])
  {
    assert !call.1.SetPaused? && !call.1.Elsewhere?;
    hide Tells;
    assert (log + [e])[..|log|] == log && (calls + [call])[..|calls|] == calls;
  }

  lemma StepTells(admin: Address, w: GiveWorld, env: Env, a: GiveAction, calls: GiveHistory)
    requires Follows(admin, w.give, calls) && LogTells(w.give.log, calls) && Gives(w, env, a).Ok?
    ensures LogTells(GiveTransact(w, env, a).give.log, calls + [(env, a)])
  {
    hide Moved, Creations, Donatings, RaisedIn, CampaignsAsAsked, ReceiptsAsGiven, PausedIn;
    var s, n := w.give, GiveTransact(w, env, a).give;
    if a.SetPaused? || a.Elsewhere? {
      assert (calls + [(env, a)])[..|calls|] == calls;
    } else {
      if a.Donate? {
        TotalsFollow(admin, s, calls, a.campaignId);
      } else if a.CloseCampaign? {
        TotalsFollow(admin, s, calls, a.id);
      }
      hide LogTells;
      var e := n.log[|n.log| - 1];
      assert n.log == s.log + [e];
      OneMoreTold(s.log, e, calls, (env, a));
    }
  }

  /** After any history the log is the committed calls that create, donate and close, in order, each with its own
      arguments, the number of its campaign or receipt, and what the campaign had raised by then. */
  lemma {:induction false} EventsFollowCalls(admin: Address, ledger: Ledger, h: GiveHistory)
    ensures LogTells(GiveRun(admin, ledger, h).give.log, Committed(admin, ledger, h))
  {
    if h != [] {
      var t, call := h[..|h| - 1], h[|h| - 1];
      EventsFollowCalls(admin, ledger, t);
      StorageFollowsCalls(admin, ledger, t);
      var w, c := GiveRun(admin, ledger, t), Committed(admin, ledger, t);
      assert c + [] == c;
      hide Follows, Gives, LogTells;
      if Gives(w, call.0, call.1).Ok? {
        StepTells(admin, w, call.0, call.1, c);
      }
    }
  }
}
