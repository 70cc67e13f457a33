/** What never changes in the donations ledger, and how it reconciles with the tokens it moved. */
module GivingHistory {
  import opened Machine
  import opened Sums
  import opened Tokens
  import opened Giving
  import opened GivingBooks

  // ---- Lifecycle --------------------------------------------------------------------

  /** A later record of the same campaign. */
  ghost predicate Later(c: Campaign, d: Campaign) {
    && d == c.(raised := d.raised, donorCount := d.donorCount, donationCount := d.donationCount, open := d.open)
    && c.raised <= d.raised && c.donorCount <= d.donorCount && c.donationCount <= d.donationCount
    && (!c.open ==> d == c)
  }

  /** A later state: no campaign or receipt is lost, campaigns only move forward and receipts not at all. */
  ghost predicate Evolves(s: GiveState, t: GiveState) {
    && s.campaignCount <= t.campaignCount && s.receiptCount <= t.receiptCount
    && (forall id :: id in s.campaigns ==> id in t.campaigns && Later(s.campaigns[id], t.campaigns[id]))
    && (forall id :: id in s.receipts ==> id in t.receipts && t.receipts[id] == s.receipts[id])
  }

  lemma StepEvolves(w: GiveWorld, env: Env, a: GiveAction)
    requires Numbered(w.give)
    ensures Evolves(w.give, GiveTransact(w, env, a).give)
  {
    match a
    case Donate(donor, id, amount, memo) =>
      if Donated(w, env, donor, id, amount, memo).Ok? {
        DonationIssues(w.give, env, donor, id, amount, memo);
        DonationEvolves(w.give, env, donor, id, amount, memo);
      }
      hide Evolves, Recorded;
    case _ =>
  }

  lemma DonationEvolves(s: GiveState, env: Env, donor: Address, id: u32, amount: i128, memo: string)
    requires Numbered(s) && Admitted(s, env, donor, id, amount, memo).Ok? && Countable(s, donor, id, amount).Ok?
    ensures Evolves(s, Recorded(s, env, donor, id, amount, memo))
  {
    assert s.campaigns[id].id == id;
    assert s.receiptCount + 1 !in s.receipts;
  }

  lemma EvolvesThrough(s: GiveState, t: GiveState, u: GiveState)
    requires Evolves(s, t) && Evolves(t, u)
    ensures Evolves(s, u)
  {
  }

  /** From any point of a history onwards, totals never decrease, identities never change, a closed campaign is frozen,
      and issued receipts stay as they are. */
  lemma {:induction false} HistoryEvolves(admin: Address, ledger: Ledger, h: GiveHistory, k: nat)
    requires k <= |h|
    ensures Evolves(GiveRun(admin, ledger, h[..k]).give, GiveRun(admin, ledger, h).give)
  {
    if k == |h| {
      assert h[..k] == h;
    } else {
      var t := h[..|h| - 1];
      assert t[..k] == h[..k];
      HistoryEvolves(admin, ledger, t, k);
      AlwaysTallied(admin, ledger, t);
      hide Evolves, GiveTransact, Numbered, TalliedBy;
      StepEvolves(GiveRun(admin, ledger, t), h[|h| - 1].0, h[|h| - 1].1);
      EvolvesThrough(GiveRun(admin, ledger, h[..k]).give, GiveRun(admin, ledger, t).give,
                     GiveRun(admin, ledger, h).give);
    }
  }

  // ---- Time ---------------------------------------------------------------------------

  /** Ledger time never goes back during the history. */
  ghost predicate Monotone(h: GiveHistory) {
    forall i, j :: 0 <= i <= j < |h| ==> h[i].0.timestamp <= h[j].0.timestamp
  }

  /** Campaigns were created by `now`, and every receipt was issued between its campaign's creation and deadline. */
  ghost predicate Timely(s: GiveState, now: int) {
    && (forall id :: id in s.campaigns ==> s.campaigns[id].createdAt <= now)
    && forall i :: i in s.receipts ==>
         var r := s.receipts[i];
         && r.campaignId in s.campaigns
         && s.campaigns[r.campaignId].createdAt <= r.timestamp <= s.campaigns[r.campaignId].deadline
  }

  lemma StepTimely(w: GiveWorld, env: Env, a: GiveAction, now: int)
    requires Numbered(w.give) && Timely(w.give, now) && now <= env.timestamp
    ensures Timely(GiveTransact(w, env, a).give, env.timestamp)
  {
    hide Moved;
    var s := w.give;
    match a
    case Donate(donor, id, amount, memo) =>
      if Donated(w, env, donor, id, amount, memo).Ok? {
        DonationTimely(s, env, donor, id, amount, memo, now);
      }
      hide Timely, Recorded, Countable;
    case _ =>
  }

  lemma DonationTimely(s: GiveState, env: Env, donor: Address, id: u32, amount: i128, memo: string, now: int)
    requires Numbered(s) && Timely(s, now) && now <= env.timestamp
    requires Admitted(s, env, donor, id, amount, memo).Ok? && Countable(s, donor, id, amount).Ok?
    ensures Timely(Recorded(s, env, donor, id, amount, memo), env.timestamp)
  {
    assert s.campaigns[id].id == id;
    hide Numbered;
  }

  ghost function Latest(h: GiveHistory): int {
    if h == [] then 0 else h[|h| - 1].0.timestamp
  }

  lemma {:induction false} ReceiptsTimely(admin: Address, ledger: Ledger, h: GiveHistory)
    requires Monotone(h)
    ensures Timely(GiveRun(admin, ledger, h).give, Latest(h))
  {
    if h != [] {
      var t := h[..|h| - 1];
      ReceiptsTimely(admin, ledger, t);
      AlwaysTallied(admin, ledger, t);
      assert Latest(t) <= h[|h| - 1].0.timestamp;
      hide Timely, GiveTransact, Numbered, TalliedBy;
      StepTimely(GiveRun(admin, ledger, t), h[|h| - 1].0, h[|h| - 1].1, Latest(t));
    }
  }

  // ---- Reconciliation with the token ledger ---------------------------------------------

  /** What each campaign in token `t` for beneficiary `a` has raised; zero for the other campaigns. */
  ghost function Received(s: GiveState, t: Address, a: Address): map<u32, int> {
    map id | id in s.campaigns ::
      if s.campaigns[id].token == t && s.campaigns[id].beneficiary == a then s.campaigns[id].raised else 0
  }

  /** What `a` has given to each campaign in token `t`; zero for the other campaigns. */
  ghost function Contributions(s: GiveState, t: Address, a: Address): map<u32, int> {
    map id | id in s.campaigns :: if s.campaigns[id].token == t then s.DonorTotal(id, a) else 0
  }

  ghost function NetReceived(s: GiveState, t: Address, a: Address): int {
    Sum(Received(s, t, a)) - Sum(Contributions(s, t, a))
  }

  ghost predicate Reconciled(start: Ledger, w: GiveWorld) {
    forall t, a :: Balance(w.ledger, t, a) == Balance(start, t, a) + NetReceived(w.give, t, a)
  }

  /** Replacing one campaign's record changes what was received by the change in that campaign. */
  lemma ReceivedReplaced(s: GiveState, n: GiveState, id: u32, d: Campaign, t: Address, a: Address)
    requires id in s.campaigns && n.campaigns == s.campaigns[id := d]
    requires d.token == s.campaigns[id].token && d.beneficiary == s.campaigns[id].beneficiary
    ensures Sum(Received(n, t, a)) == Sum(Received(s, t, a))
      + (if d.token == t && d.beneficiary == a then d.raised - s.campaigns[id].raised else 0)
  {
    var got := if d.token == t && d.beneficiary == a then d.raised else 0;
    SumPut(Received(s, t, a), id, got);
    assert Received(n, t, a) == Received(s, t, a)[id := got];
  }

  lemma ContributionsReplaced(s: GiveState, n: GiveState, id: u32, d: Campaign, donor: Address, amount: i128,
        t: Address, a: Address)
    requires id in s.campaigns && n.campaigns == s.campaigns[id := d] && d.token == s.campaigns[id].token
    requires I128_MIN <= s.DonorTotal(id, donor) + amount <= I128_MAX
    requires n.donorTotals == s.donorTotals[(id, donor) := s.DonorTotal(id, donor) + amount]
    ensures Sum(Contributions(n, t, a))
         == Sum(Contributions(s, t, a)) + (if d.token == t && donor == a then amount else 0)
  {
    var gave := if d.token == t then n.DonorTotal(id, a) else 0;
    SumPut(Contributions(s, t, a), id, gave);
    assert Contributions(n, t, a) == Contributions(s, t, a)[id := gave];
  }

  lemma DonationNets(s: GiveState, env: Env, donor: Address, id: u32, amount: i128, memo: string,
        t: Address, a: Address)
    requires Numbered(s) && id in s.campaigns && Countable(s, donor, id, amount).Ok?
    ensures var c := s.campaigns[id];
            NetReceived(Recorded(s, env, donor, id, amount, memo), t, a)
            == NetReceived(s, t, a) + Change(c.token, donor, c.beneficiary, amount, t, a)
  {
    hide Numbered, Issued, Received, Contributions, Sum;
    var n, d := Recorded(s, env, donor, id, amount, memo), Credited(s, donor, id, amount);
    DonationIssues(s, env, donor, id, amount, memo);
    ReceivedReplaced(s, n, id, d, t, a);
    ContributionsReplaced(s, n, id, d, donor, amount, t, a);
  }

  lemma DonationReconciles(start: Ledger, w: GiveWorld, env: Env, donor: Address, id: u32, amount: i128, memo: string)
    requires Numbered(w.give) && Reconciled(start, w) && Donated(w, env, donor, id, amount, memo).Ok?
    ensures Reconciled(start, Donated(w, env, donor, id, amount, memo).value)
  {
    var n, c := Donated(w, env, donor, id, amount, memo).value, w.give.campaigns[id];
    MovedBalances(w.ledger, c.token, donor, c.beneficiary, amount);
    hide Moved, NetReceived, Recorded, Balance, Change, Numbered;
    forall t, a
      ensures Balance(n.ledger, t, a) == Balance(start, t, a) + NetReceived(n.give, t, a)
    {
      DonationNets(w.give, env, donor, id, amount, memo, t, a);
    }
  }

  /** A new campaign without donations nets nothing. */
  lemma CampaignAdded(s: GiveState, n: GiveState, id: u32, d: Campaign, t: Address, who: Address)
    requires id !in s.campaigns && n.campaigns == s.campaigns[id := d] && n.donorTotals == s.donorTotals
    requires d.raised == 0 && s.DonorTotal(id, who) == 0
    ensures NetReceived(n, t, who) == NetReceived(s, t, who)
  {
    hide Sum;
    SumPut(Received(s, t, who), id, 0);
    assert Received(n, t, who) == Received(s, t, who)[id := 0];
    SumPut(Contributions(s, t, who), id, 0);
    assert Contributions(n, t, who) == Contributions(s, t, who)[id := 0];
  }

  lemma CreationNets(s: GiveState, env: Env, a: GiveAction, t: Address, who: Address)
    requires Tallied(s) && a.CreateCampaign? && Created(s, env, a).Ok?
    ensures NetReceived(Created(s, env, a).value, t, who) == NetReceived(s, t, who)
  {
    var n := Created(s, env, a).value;
    CreationIssues(s, env, a);
    NothingGiven(s, n.campaignCount, who);
    hide Tallied, Created, NetReceived;
    CampaignAdded(s, n, n.campaignCount, NewCampaign(n.campaignCount, env, a), t, who);
  }

  lemma NothingGiven(s: GiveState, id: u32, who: Address)
    requires Tallied(s) && id !in s.campaigns
    ensures s.DonorTotal(id, who) == 0
  {
    hide Numbered, Issued;
    Unmentioned(Issued(s), id);
    NoneGiven(Issued(s), id, who);
  }

  /** Creating, closing and pausing raise and give nothing. */
  lemma ManagementNets(w: GiveWorld, env: Env, a: GiveAction, t: Address, who: Address)
    requires Tallied(w.give) && !a.Donate? && !a.Elsewhere?
    ensures NetReceived(GiveTransact(w, env, a).give, t, who) == NetReceived(w.give, t, who)
  {
    hide TalliedBy, Issued, Created, ClosedBy, Sum;
    var s, n := w.give, GiveTransact(w, env, a).give;
    if a.CreateCampaign? && Created(s, env, a).Ok? {
      CreationNets(s, env, a, t, who);
    } else if a.CloseCampaign? && ClosedBy(s, env, a.caller, a.id).Ok? {
      ClosureIssues(s, env, a.caller, a.id);
      hide Numbered, NetReceived, GiveTransact;
      SameNet(s, n, t, who);
    } else {
      SameNet(s, n, t, who);
    }
  }

  /** Records that agree on token, beneficiary and amount raised net the same. */
  lemma SameNet(s: GiveState, n: GiveState, t: Address, who: Address)
    requires n.campaigns.Keys == s.campaigns.Keys && n.donorTotals == s.donorTotals
    requires forall id :: id in s.campaigns ==>
      && n.campaigns[id].token == s.campaigns[id].token && n.campaigns[id].beneficiary == s.campaigns[id].beneficiary
      && n.campaigns[id].raised == s.campaigns[id].raised
    ensures NetReceived(n, t, who) == NetReceived(s, t, who)
  {
    hide Sum;
    assert Received(n, t, who) == Received(s, t, who);
    assert Contributions(n, t, who) == Contributions(s, t, who);
  }

  /** Only this contract moves tokens during the history. */
  ghost predicate Undisturbed(h: GiveHistory) {
    forall i :: 0 <= i < |h| ==> !h[i].1.Elsewhere?
  }

  /** The change in what anyone holds of any token is what was raised for them less what they gave in that token. */
  lemma {:induction false} TokensReconcile(admin: Address, start: Ledger, h: GiveHistory)
    requires Undisturbed(h)
    ensures Reconciled(start, GiveRun(admin, start, h))
  {
    if h == [] {
      forall t, a ensures NetReceived(Deployed(admin), t, a) == 0 {
        SumZero(Received(Deployed(admin), t, a));
        SumZero(Contributions(Deployed(admin), t, a));
      }
    } else {
      var w := GiveRun(admin, start, h[..|h| - 1]);
      TokensReconcile(admin, start, h[..|h| - 1]);
      AlwaysTallied(admin, start, h[..|h| - 1]);
      StepReconciles(start, w, h[|h| - 1].0, h[|h| - 1].1);
    }
  }

  lemma StepReconciles(start: Ledger, w: GiveWorld, env: Env, a: GiveAction)
    requires Tallied(w.give) && Reconciled(start, w) && !a.Elsewhere?
    ensures Reconciled(start, GiveTransact(w, env, a))
  {
    if a.Donate? {
      if Donated(w, env, a.donor, a.campaignId, a.amount, a.memo).Ok? {
        DonationReconciles(start, w, env, a.donor, a.campaignId, a.amount, a.memo);
      }
      hide Reconciled, Donated;
    } else {
      assert GiveTransact(w, env, a).ledger == w.ledger;
      hide NetReceived, Tallied, GiveTransact;
      forall t, who
        ensures NetReceived(GiveTransact(w, env, a).give, t, who) == NetReceived(w.give, t, who)
      {
        ManagementNets(w, env, a, t, who);
      }
    }
  }

  /** `who` is no campaign's beneficiary and has given nothing. */
  ghost predicate Bystander(s: GiveState, who: Address) {
    && (forall id :: id in s.campaigns ==> s.campaigns[id].beneficiary != who)
    && (forall id: u32 :: s.DonorTotal(id, who) == 0)
  }

  /** The contract holds nothing for anyone: an account that is no campaign's beneficiary and has given nothing, the
      contract's own among them, keeps exactly what it had. */
  lemma BystandersUntouched(admin: Address, start: Ledger, h: GiveHistory, who: Address, t: Address)
    requires Undisturbed(h)
    requires Bystander(GiveRun(admin, start, h).give, who)
    ensures Balance(GiveRun(admin, start, h).ledger, t, who) == Balance(start, t, who)
  {
    TokensReconcile(admin, start, h);
    hide GiveRun, NetReceived;
    BystanderNets(GiveRun(admin, start, h).give, t, who);
  }

  lemma BystanderNets(s: GiveState, t: Address, who: Address)
    requires Bystander(s, who)
    ensures NetReceived(s, t, who) == 0
  {
    SumZero(Received(s, t, who));
    SumZero(Contributions(s, t, who));
  }

  // ---- The donation events ----------------------------------------------------------------

  function DonationEvents(log: seq<GiveEvent>): seq<GiveEvent> {
    if log == [] then [] else
    DonationEvents(log[..|log| - 1]) + (if log[|log| - 1].DonationMade? then [log[|log| - 1]] else [])
  }

  /** The event a receipt should have left: its own data and the running total of its campaign up to it. */
  ghost predicate Announces(e: GiveEvent, h: seq<Receipt>, i: nat)
    requires i < |h|
  {
    e.DonationMade? && e.campaignId == h[i].campaignId && e.donor == h[i].donor && e.receiptId == h[i].id
    && e.amount == h[i].amount && e.raised == Raised(h[..i + 1], h[i].campaignId)
  }

  ghost predicate Announced(s: GiveState)
    requires Numbered(s)
  {
    var events := DonationEvents(s.log);
    |events| == |Issued(s)| && forall i :: 0 <= i < |events| ==> Announces(events[i], Issued(s), i)
  }

  /** The donation events of the log are the receipts in order, each with its campaign's total so far. */
  lemma {:induction false} ReceiptsAnnounced(admin: Address, ledger: Ledger, h: GiveHistory)
    ensures Numbered(GiveRun(admin, ledger, h).give) && Announced(GiveRun(admin, ledger, h).give)
  {
    AlwaysTallied(admin, ledger, h);
    if h != [] {
      ReceiptsAnnounced(admin, ledger, h[..|h| - 1]);
      AlwaysTallied(admin, ledger, h[..|h| - 1]);
      hide TalliedBy, Numbered, GiveTransact, Announced;
      StepAnnounced(GiveRun(admin, ledger, h[..|h| - 1]), h[|h| - 1].0, h[|h| - 1].1);
    }
  }

  lemma StepAnnounced(w: GiveWorld, env: Env, a: GiveAction)
    requires Tallied(w.give) && Announced(w.give) && Numbered(GiveTransact(w, env, a).give)
    ensures Announced(GiveTransact(w, env, a).give)
  {
    hide Announces, DonationEvents, TalliedBy, Numbered, Issued, Moved;
    var s, n := w.give, GiveTransact(w, env, a).give;
    if a.Donate? && Donated(w, env, a.donor, a.campaignId, a.amount, a.memo).Ok? {
      DonationAnnounced(s, env, a.donor, a.campaignId, a.amount, a.memo);
      hide Announced, Recorded, Countable, Admitted;
    } else {
      IssuesNothing(w, env, a);
      hide GiveTransact;
      SameIssued(s, n);
    }
  }

  lemma SameIssued(s: GiveState, n: GiveState)
    requires Numbered(s) && Numbered(n) && n.receipts == s.receipts && n.receiptCount == s.receiptCount
    ensures Issued(n) == Issued(s)
  {
  }

  lemma IssuesNothing(w: GiveWorld, env: Env, a: GiveAction)
    requires a.Donate? ==> !Donated(w, env, a.donor, a.campaignId, a.amount, a.memo).Ok?
    ensures var s, n := w.give, GiveTransact(w, env, a).give;
            && n.receipts == s.receipts && n.receiptCount == s.receiptCount
            && DonationEvents(n.log) == DonationEvents(s.log)
  {
    hide Donated;
    var s, n := w.give, GiveTransact(w, env, a).give;
    assert n.log == s.log || n.log[..|n.log| - 1] == s.log;
  }

  lemma AnnouncementStands(e: GiveEvent, h: seq<Receipt>, r: Receipt, i: nat)
    requires i < |h| && Announces(e, h, i)
    ensures Announces(e, h + [r], i)
  {
    assert (h + [r])[..i + 1] == h[..i + 1];
  }

  /** The event of a donation announces its receipt. */
  lemma ReceiptAnnounced(s: GiveState, h: seq<Receipt>, r: Receipt, e: GiveEvent)
    requires TalliedBy(s, h) && r.campaignId in s.campaigns
    requires e.DonationMade?
    requires e == DonationMade(r.campaignId, r.donor, r.id, r.amount, e.raised, GIVE_SCHEMA_VERSION)
    requires e.raised == s.campaigns[r.campaignId].raised + r.amount
    ensures Announces(e, h + [r], |h|)
  {
    assert CampaignTallied(s.campaigns[r.campaignId], r.campaignId, h);
    OneMore(h, r, r.campaignId);
    assert (h + [r])[..|h| + 1] == h + [r];
  }

  lemma EventsGrow(log: seq<GiveEvent>, e: GiveEvent)
    requires e.DonationMade?
    ensures DonationEvents(log + [e]) == DonationEvents(log) + [e]
  {
  }

  lemma AllAnnounced(events: seq<GiveEvent>, e: GiveEvent, h: seq<Receipt>, r: Receipt)
    requires |events| == |h| && forall i :: 0 <= i < |h| ==> Announces(events[i], h, i)
    requires Announces(e, h + [r], |h|)
    ensures forall i :: 0 <= i < |events + [e]| ==> Announces((events + [e])[i], h + [r], i)
  {
    hide Announces;
    forall i | 0 <= i < |h|
      ensures Announces((events + [e])[i], h + [r], i)
    {
      AnnouncementStands(events[i], h, r, i);
    }
  }

  lemma DonationAnnounced(s: GiveState, env: Env, donor: Address, id: u32, amount: i128, memo: string)
    requires Tallied(s) && Announced(s) && id in s.campaigns && Countable(s, donor, id, amount).Ok?
    requires Numbered(Recorded(s, env, donor, id, amount, memo))
    ensures Announced(Recorded(s, env, donor, id, amount, memo))
  {
    hide Numbered, TalliedBy, Issued, Announces;
    var h, r := Issued(s), NewReceipt(s, env, donor, id, amount, memo);
    var e := DonationMade(id, donor, r.id, amount, Credited(s, donor, id, amount).raised, GIVE_SCHEMA_VERSION);
    DonationIssues(s, env, donor, id, amount, memo);
    EventsGrow(s.log, e);
    ReceiptAnnounced(s, h, r, e);
    AllAnnounced(DonationEvents(s.log), e, h, r);
  }
}
