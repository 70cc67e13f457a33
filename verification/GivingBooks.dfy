/** The running totals of the donations ledger, tied to the receipts it has issued. */
module GivingBooks {
  import opened Machine
  import opened Sums
  import opened Tokens
  import opened Giving

  // ---- What the receipts say --------------------------------------------------------

  ghost function Raised(h: seq<Receipt>, id: u32): int {
    if h == [] then 0 else
    Raised(h[..|h| - 1], id) + (if h[|h| - 1].campaignId == id then h[|h| - 1].amount else 0)
  }

  ghost function GivenBy(h: seq<Receipt>, id: u32, donor: Address): int {
    if h == [] then 0 else
    GivenBy(h[..|h| - 1], id, donor)
    + (if h[|h| - 1].campaignId == id && h[|h| - 1].donor == donor then h[|h| - 1].amount else 0)
  }

  ghost function Count(h: seq<Receipt>, id: u32): nat {
    if h == [] then 0 else
    Count(h[..|h| - 1], id) + (if h[|h| - 1].campaignId == id then 1 else 0)
  }

  ghost function Donors(h: seq<Receipt>, id: u32): set<Address> {
    if h == [] then {} else
    Donors(h[..|h| - 1], id) + (if h[|h| - 1].campaignId == id then {h[|h| - 1].donor} else {})
  }

  ghost predicate AllPositive(h: seq<Receipt>) {
    forall i :: 0 <= i < |h| ==> 0 < h[i].amount
  }

  lemma {:induction false} GivenPositive(h: seq<Receipt>, id: u32, donor: Address)
    requires AllPositive(h)
    ensures 0 <= GivenBy(h, id, donor) <= Raised(h, id)
    ensures 0 < GivenBy(h, id, donor) <==> donor in Donors(h, id)
  {
    if h != [] {
      GivenPositive(h[..|h| - 1], id, donor);
    }
  }

  ghost function Gifts(h: seq<Receipt>, id: u32): map<Address, int> {
    map d | d in Donors(h, id) :: GivenBy(h, id, d)
  }

  /** What a campaign raised is what its donors gave. */
  lemma {:induction false} RaisedIsGiven(h: seq<Receipt>, id: u32)
    ensures Raised(h, id) == Sum(Gifts(h, id))
  {
    if h == [] {
      SumZero(Gifts(h, id));
    } else {
      var t, r := h[..|h| - 1], h[|h| - 1];
      RaisedIsGiven(t, id);
      if r.campaignId == id {
        NoneGiven(t, id, r.donor);
        SumPut(Gifts(t, id), r.donor, GivenBy(h, id, r.donor));
        assert Gifts(h, id) == Gifts(t, id)[r.donor := GivenBy(h, id, r.donor)];
      } else {
        assert Gifts(h, id) == Gifts(t, id);
      }
    }
  }

  lemma {:induction false} NoneGiven(h: seq<Receipt>, id: u32, donor: Address)
    ensures donor !in Donors(h, id) ==> GivenBy(h, id, donor) == 0
  {
    if h != [] {
      NoneGiven(h[..|h| - 1], id, donor);
    }
  }

  lemma {:induction false} CountsOrdered(h: seq<Receipt>, id: u32)
    requires AllPositive(h)
    ensures |Donors(h, id)| <= Count(h, id) <= |h|
    ensures Count(h, id) <= Raised(h, id)
  {
    if h != [] {
      CountsOrdered(h[..|h| - 1], id);
      var t, r := h[..|h| - 1], h[|h| - 1];
      assert r.donor in Donors(t, id) ==> Donors(t, id) + {r.donor} == Donors(t, id);
    }
  }

  ghost function Counts(h: seq<Receipt>, ids: set<u32>): map<u32, int> {
    map id | id in ids :: Count(h, id)
  }

  /** Every receipt is counted for exactly one campaign. */
  lemma {:induction false} CountsAddUp(h: seq<Receipt>, ids: set<u32>)
    requires forall i :: 0 <= i < |h| ==> h[i].campaignId in ids
    ensures Sum(Counts(h, ids)) == |h|
  {
    if h == [] {
      SumZero(Counts(h, ids));
    } else {
      var t, r := h[..|h| - 1], h[|h| - 1];
      CountsAddUp(t, ids);
      SumPut(Counts(t, ids), r.campaignId, Count(h, r.campaignId));
      assert Counts(h, ids) == Counts(t, ids)[r.campaignId := Count(h, r.campaignId)];
    }
  }

  // ---- The invariant ------------------------------------------------------------------

  /** Keys are exactly 1..n and every record is stored under its own id. */
  ghost predicate Numbered(s: GiveState) {
    && (forall id: u32 :: id in s.campaigns <==> 1 <= id <= s.campaignCount)
    && (forall id :: id in s.campaigns ==> s.campaigns[id].id == id)
    && (forall id: u64 :: id in s.receipts <==> 1 <= id <= s.receiptCount)
    && (forall id :: id in s.receipts ==> s.receipts[id].id == id)
  }

  /** The receipts in the order they were issued. */
  ghost function Issued(s: GiveState): (h: seq<Receipt>)
    requires Numbered(s)
    ensures |h| == s.receiptCount
  {
    seq(s.receiptCount, i requires 0 <= i < s.receiptCount => s.receipts[i + 1])
  }

  ghost predicate ReceiptsOk(s: GiveState, h: seq<Receipt>) {
    forall i :: 0 <= i < |h| ==>
      && 0 < h[i].amount && h[i].campaignId in s.campaigns
      && h[i].donor != s.campaigns[h[i].campaignId].beneficiary
  }

  ghost predicate CampaignTallied(c: Campaign, id: u32, h: seq<Receipt>) {
    && c.raised == Raised(h, id)
    && c.donationCount == Count(h, id)
    && c.donorCount == |Donors(h, id)|
  }

  ghost predicate TotalsTallied(s: GiveState, h: seq<Receipt>) {
    forall id: u32, d :: s.DonorTotal(id, d) == GivenBy(h, id, d) && ((id, d) in s.donorTotals <==> d in Donors(h, id))
  }

  ghost predicate CampaignsTallied(s: GiveState, h: seq<Receipt>) {
    forall id :: id in s.campaigns ==> CampaignTallied(s.campaigns[id], id, h)
  }

  ghost predicate TalliedBy(s: GiveState, h: seq<Receipt>) {
    ReceiptsOk(s, h) && CampaignsTallied(s, h) && TotalsTallied(s, h)
  }

  /** Every total the contract keeps is the one its receipts give. */
  ghost predicate Tallied(s: GiveState) {
    Numbered(s) && TalliedBy(s, Issued(s))
  }

  /** A donation appends one receipt. */
  lemma DonationIssues(s: GiveState, env: Env, donor: Address, id: u32, amount: i128, memo: string)
    requires Numbered(s) && id in s.campaigns && Countable(s, donor, id, amount).Ok?
    ensures var n := Recorded(s, env, donor, id, amount, memo);
            && Numbered(n)
            && Issued(n) == Issued(s) + [NewReceipt(s, env, donor, id, amount, memo)]
            && n.campaigns == s.campaigns[id := Credited(s, donor, id, amount)]
  {
    var n := Recorded(s, env, donor, id, amount, memo);
    assert Numbered(n);
    assert Issued(n) == Issued(s) + [NewReceipt(s, env, donor, id, amount, memo)];
  }

  /** How one more receipt changes what the receipts say. */
  lemma OneMore(h: seq<Receipt>, r: Receipt, id: u32)
    ensures Raised(h + [r], id) == Raised(h, id) + (if r.campaignId == id then r.amount else 0)
    ensures Count(h + [r], id) == Count(h, id) + (if r.campaignId == id then 1 else 0)
    ensures Donors(h + [r], id) == Donors(h, id) + (if r.campaignId == id then {r.donor} else {})
    ensures forall d ::
      GivenBy(h + [r], id, d) == GivenBy(h, id, d) + (if r.campaignId == id && r.donor == d then r.amount else 0)
  {
    assert (h + [r])[..|h + [r]| - 1] == h;
  }

  /** The campaign that receives a donation stays tallied. */
  lemma CreditTallied(s: GiveState, h: seq<Receipt>, r: Receipt)
    requires TalliedBy(s, h) && r.campaignId in s.campaigns && Countable(s, r.donor, r.campaignId, r.amount).Ok?
    ensures CampaignTallied(Credited(s, r.donor, r.campaignId, r.amount), r.campaignId, h + [r])
  {
    var id := r.campaignId;
    OneMore(h, r, id);
    GivenPositive(h, id, r.donor);
    assert CampaignTallied(s.campaigns[id], id, h);
    assert s.DonorTotal(id, r.donor) == GivenBy(h, id, r.donor);
    hide Raised, Count, Donors, GivenBy, TalliedBy, ReceiptsOk, TotalsTallied;
    if r.donor in Donors(h, id) {
      assert Donors(h + [r], id) == Donors(h, id);
    }
  }

  /** Replacing one campaign's record by a tallied one, with the totals as they were, keeps the books. */
  lemma RecordReplaced(s: GiveState, n: GiveState, h: seq<Receipt>, id: u32, c: Campaign)
    requires TalliedBy(s, h) && n.donorTotals == s.donorTotals && n.campaigns == s.campaigns[id := c]
    requires id in s.campaigns ==> c.beneficiary == s.campaigns[id].beneficiary
    requires CampaignTallied(c, id, h)
    ensures TalliedBy(n, h)
  {
  }

  /** A receipt leaves every other campaign tallied. */
  lemma OthersTallied(s: GiveState, n: GiveState, h: seq<Receipt>, r: Receipt, c: Campaign)
    requires CampaignsTallied(s, h) && n.campaigns == s.campaigns[r.campaignId := c]
    requires CampaignTallied(c, r.campaignId, h + [r])
    ensures CampaignsTallied(n, h + [r])
  {
  }

  /** Appending a receipt, crediting its campaign and adding it to its donor's total keeps the books. */
  lemma ReceiptAppended(s: GiveState, n: GiveState, h: seq<Receipt>, r: Receipt, c: Campaign)
    requires TalliedBy(s, h) && r.campaignId in s.campaigns
    requires 0 < r.amount && r.donor != c.beneficiary && c.beneficiary == s.campaigns[r.campaignId].beneficiary
    requires n.campaigns == s.campaigns[r.campaignId := c] && CampaignTallied(c, r.campaignId, h + [r])
    requires I128_MIN <= s.DonorTotal(r.campaignId, r.donor) + r.amount <= I128_MAX
    requires n.donorTotals == s.donorTotals[(r.campaignId, r.donor) := s.DonorTotal(r.campaignId, r.donor) + r.amount]
    ensures TalliedBy(n, h + [r])
  {
    hide TotalsTallied, CampaignsTallied, CampaignTallied;
    TotalsGrow(s, h, r, n);
    OthersTallied(s, n, h, r, c);
  }

  lemma DonationTallied(s: GiveState, env: Env, donor: Address, id: u32, amount: i128, memo: string)
    requires Tallied(s) && 0 < amount && id in s.campaigns && Countable(s, donor, id, amount).Ok?
    requires donor != s.campaigns[id].beneficiary
    ensures Tallied(Recorded(s, env, donor, id, amount, memo))
  {
    hide Numbered, Issued, TalliedBy, CampaignTallied;
    var n, h, r := Recorded(s, env, donor, id, amount, memo), Issued(s), NewReceipt(s, env, donor, id, amount, memo);
    DonationIssues(s, env, donor, id, amount, memo);
    CreditTallied(s, h, r);
    ReceiptAppended(s, n, h, r, Credited(s, donor, id, amount));
  }

  /** Adding the amount to the donor's total keeps the totals tallied. */
  lemma TotalsGrow(s: GiveState, h: seq<Receipt>, r: Receipt, n: GiveState)
    requires TotalsTallied(s, h)
    requires I128_MIN <= s.DonorTotal(r.campaignId, r.donor) + r.amount <= I128_MAX
    requires n.donorTotals == s.donorTotals[(r.campaignId, r.donor) := s.DonorTotal(r.campaignId, r.donor) + r.amount]
    ensures TotalsTallied(n, h + [r])
  {
  }

  lemma CreationIssues(s: GiveState, env: Env, a: GiveAction)
    requires a.CreateCampaign? && Numbered(s) && Created(s, env, a).Ok?
    ensures var n := Created(s, env, a).value;
            && Numbered(n) && Issued(n) == Issued(s) && n.donorTotals == s.donorTotals
            && n.campaignCount !in s.campaigns
            && n.campaigns == s.campaigns[n.campaignCount := NewCampaign(n.campaignCount, env, a)]
  {
  }

  lemma CreationTallied(s: GiveState, env: Env, a: GiveAction)
    requires a.CreateCampaign? && Tallied(s) && Created(s, env, a).Ok?
    ensures Tallied(Created(s, env, a).value)
  {
    CreationIssues(s, env, a);
    var n, h := Created(s, env, a).value, Issued(s);
    Unmentioned(h, n.campaignCount);
    hide Created, Numbered, Issued, Raised, Count, Donors, GivenBy, TotalsTallied;
    RecordReplaced(s, n, h, n.campaignCount, NewCampaign(n.campaignCount, env, a));
  }

  lemma {:induction false} Unmentioned(h: seq<Receipt>, id: u32)
    requires forall i :: 0 <= i < |h| ==> h[i].campaignId != id
    ensures Raised(h, id) == 0 && Count(h, id) == 0 && Donors(h, id) == {}
  {
    if h != [] {
      Unmentioned(h[..|h| - 1], id);
    }
  }

  lemma ClosureIssues(s: GiveState, env: Env, caller: Address, id: u32)
    requires Numbered(s) && ClosedBy(s, env, caller, id).Ok?
    ensures var n := ClosedBy(s, env, caller, id).value;
            && Numbered(n) && Issued(n) == Issued(s) && n.donorTotals == s.donorTotals
            && id in s.campaigns && n.campaigns == s.campaigns[id := s.campaigns[id].(open := false)]
  {
  }

  lemma ClosureTallied(s: GiveState, env: Env, caller: Address, id: u32)
    requires Tallied(s) && ClosedBy(s, env, caller, id).Ok?
    ensures Tallied(ClosedBy(s, env, caller, id).value)
  {
    ClosureIssues(s, env, caller, id);
    var n, h := ClosedBy(s, env, caller, id).value, Issued(s);
    assert CampaignTallied(s.campaigns[id], id, h);
    hide ClosedBy, Numbered, Issued, Raised, Count, Donors, GivenBy, TalliedBy;
    RecordReplaced(s, n, h, id, s.campaigns[id].(open := false));
  }

  lemma StepTallied(w: GiveWorld, env: Env, a: GiveAction)
    requires Tallied(w.give)
    ensures Tallied(GiveTransact(w, env, a).give)
  {
    hide Tallied, Recorded, Countable, Created, ClosedBy, Moved;
    match a
    case Donate(donor, id, amount, memo) =>
      if Donated(w, env, donor, id, amount, memo).Ok? {
        DonationTallied(w.give, env, donor, id, amount, memo);
      }
    case CreateCampaign(_, _, _, _, _, _, _) =>
      if Created(w.give, env, a).Ok? {
        CreationTallied(w.give, env, a);
      }
    case CloseCampaign(caller, id) =>
      if ClosedBy(w.give, env, caller, id).Ok? {
        ClosureTallied(w.give, env, caller, id);
      }
    case SetPaused(paused) =>
      PauseTallied(w.give, paused);
    case Elsewhere(_) =>
  }

  lemma PauseTallied(s: GiveState, paused: bool)
    requires Tallied(s)
    ensures Tallied(s.(paused := paused))
  {
    var n := s.(paused := paused);
    assert Issued(n) == Issued(s);
    assert forall c: u32, d :: n.DonorTotal(c, d) == s.DonorTotal(c, d);
  }

  lemma {:induction false} AlwaysTallied(admin: Address, ledger: Ledger, h: GiveHistory)
    ensures Tallied(GiveRun(admin, ledger, h).give)
  {
    if h != [] {
      AlwaysTallied(admin, ledger, h[..|h| - 1]);
      hide Tallied, GiveTransact;
      StepTallied(GiveRun(admin, ledger, h[..|h| - 1]), h[|h| - 1].0, h[|h| - 1].1);
    }
  }

  // ---- Results about every reachable state ----------------------------------------------

  /** The donors of a campaign with a positive stored total. */
  ghost function DonorsOf(s: GiveState, id: u32): set<Address> {
    set k | k in s.donorTotals && k.0 == id && 0 < s.donorTotals[k] :: k.1
  }

  ghost function DonorBook(s: GiveState, id: u32): map<Address, int> {
    map d | d in DonorsOf(s, id) :: s.DonorTotal(id, d)
  }

  ghost function DonationCounts(s: GiveState): map<u32, int> {
    map id | id in s.campaigns :: s.campaigns[id].donationCount
  }

  lemma DonorsAgree(s: GiveState, id: u32)
    requires Tallied(s)
    ensures DonorsOf(s, id) == Donors(Issued(s), id)
    ensures DonorBook(s, id) == Gifts(Issued(s), id)
  {
    hide Numbered, Issued, Raised, Donors, GivenBy;
    var h := Issued(s);
    assert AllPositive(h);
    forall d
      ensures d in DonorsOf(s, id) <==> d in Donors(h, id)
    {
      GivenPositive(h, id, d);
      assert s.DonorTotal(id, d) == GivenBy(h, id, d);
      if d in Donors(h, id) {
        assert (id, d) in s.donorTotals && 0 < s.donorTotals[(id, d)];
      }
    }
    assert DonorsOf(s, id) == Donors(h, id);
  }

  /** In every reachable state each campaign's running totals are those of its receipts. */
  lemma CampaignMatchesReceipts(admin: Address, ledger: Ledger, h: GiveHistory, id: u32)
    requires id in GiveRun(admin, ledger, h).give.campaigns
    ensures var s := GiveRun(admin, ledger, h).give;
            Numbered(s) && CampaignTallied(s.campaigns[id], id, Issued(s))
  {
    AlwaysTallied(admin, ledger, h);
  }

  /** In every reachable state a campaign has raised the sum of its donors' totals, and counts its donors. */
  lemma CampaignBalances(admin: Address, ledger: Ledger, h: GiveHistory, id: u32)
    requires id in GiveRun(admin, ledger, h).give.campaigns
    ensures var s := GiveRun(admin, ledger, h).give;
            s.campaigns[id].raised == Sum(DonorBook(s, id)) && s.campaigns[id].donorCount == |DonorsOf(s, id)|
  {
    var s := GiveRun(admin, ledger, h).give;
    AlwaysTallied(admin, ledger, h);
    assert CampaignTallied(s.campaigns[id], id, Issued(s));
    DonorsAgree(s, id);
    RaisedIsGiven(Issued(s), id);
  }

  /** In every reachable state the campaigns' donation counts add up to the receipt count. */
  lemma CountsBalance(admin: Address, ledger: Ledger, h: GiveHistory)
    ensures Sum(DonationCounts(GiveRun(admin, ledger, h).give)) == GiveRun(admin, ledger, h).give.receiptCount
  {
    var s := GiveRun(admin, ledger, h).give;
    AlwaysTallied(admin, ledger, h);
    CountsAddUp(Issued(s), s.campaigns.Keys);
    hide GiveRun, Issued, Count;
    assert DonationCounts(s) == Counts(Issued(s), s.campaigns.Keys) by {
      assert forall id :: id in s.campaigns ==> CampaignTallied(s.campaigns[id], id, Issued(s));
    }
  }

  /** In every reachable state the totals are ordered, so that a donation is countable exactly when the checked addition
      on `raised` and the counts of donations and receipts have room. The unchecked addition on the donor's total never
      overflows unless the checked one fails; when it does the donation traps, and when only the checked one fails the
      donation answers `InvalidAmount`, unless the count of donors traps before. */
  lemma OverflowOrder(admin: Address, ledger: Ledger, h: GiveHistory, donor: Address, id: u32, amount: i128)
    requires id in GiveRun(admin, ledger, h).give.campaigns && 0 < amount
    ensures var s := GiveRun(admin, ledger, h).give;
            var c := s.campaigns[id];
            && 0 <= s.DonorTotal(id, donor) <= c.raised
            && c.donorCount <= c.donationCount <= c.raised && c.donationCount <= s.receiptCount
            && (s.DonorTotal(id, donor) + amount > I128_MAX ==> c.raised + amount > I128_MAX)
            && (c.donorCount == U32_MAX ==> c.donationCount == U32_MAX)
            && (Countable(s, donor, id, amount).Ok? <==>
                  c.raised + amount <= I128_MAX && c.donationCount < U32_MAX && s.receiptCount < U64_MAX)
            && (Countable(s, donor, id, amount) == Err(InvalidAmount) <==>
                  && s.DonorTotal(id, donor) + amount <= I128_MAX < c.raised + amount
                  && !(s.DonorTotal(id, donor) == 0 && c.donorCount == U32_MAX))
            && (Countable(s, donor, id, amount) == Trap(ArithmeticOverflow) <==>
                  || s.DonorTotal(id, donor) + amount > I128_MAX
                  || (s.DonorTotal(id, donor) == 0 && c.donorCount == U32_MAX)
                  || (c.raised + amount <= I128_MAX && (c.donationCount == U32_MAX || s.receiptCount == U64_MAX)))
  {
    var s := GiveRun(admin, ledger, h).give;
    AlwaysTallied(admin, ledger, h);
    var issued := Issued(s);
    assert CampaignTallied(s.campaigns[id], id, issued);
    assert AllPositive(issued);
    GivenPositive(issued, id, donor);
    CountsOrdered(issued, id);
    hide GiveRun, Numbered, Issued, Raised, Count, Donors, GivenBy;
  }

  /** What has to hold for a donation to be accepted. */
  ghost predicate Acceptable(w: GiveWorld, env: Env, donor: Address, id: u32, amount: i128, memo: string) {
    var s := w.give;
    && !s.paused && donor in env.signers && 0 < amount && |memo| <= MAX_TEXT_LEN
    && id in s.campaigns
    && var c := s.campaigns[id];
       && c.open && env.timestamp <= c.deadline && donor != c.beneficiary
       && c.token in w.ledger && amount <= Balance(w.ledger, c.token, donor)
       && c.raised + amount <= I128_MAX && c.donationCount < U32_MAX && s.receiptCount < U64_MAX
  }

  /** In every reachable state over a sound ledger a donation is accepted exactly when it is acceptable. */
  lemma AcceptedIffAcceptable(admin: Address, ledger: Ledger, h: GiveHistory, env: Env,
        donor: Address, id: u32, amount: i128, memo: string)
    requires Sound(GiveRun(admin, ledger, h).ledger)
    ensures var w := GiveRun(admin, ledger, h);
            Donated(w, env, donor, id, amount, memo).Ok? <==> Acceptable(w, env, donor, id, amount, memo)
  {
    var w := GiveRun(admin, ledger, h);
    if 0 < amount && id in w.give.campaigns {
      OverflowOrder(admin, ledger, h, donor, id, amount);
      MovedEffect(w.ledger, w.give.campaigns[id].token, donor, w.give.campaigns[id].beneficiary, amount);
    }
    hide GiveRun, Countable, Moved, Sound, Recorded;
  }

  lemma RunOneMore(admin: Address, ledger: Ledger, h: GiveHistory, env: Env, a: GiveAction)
    ensures GiveRun(admin, ledger, h + [(env, a)]) == GiveTransact(GiveRun(admin, ledger, h), env, a)
  {
    assert (h + [(env, a)])[..|h|] == h;
  }

  /** A donation to an open campaign that has none yet. */
  lemma FirstGift(w: GiveWorld, env: Env, donor: Address, amount: i128)
    requires Sound(w.ledger) && 1 in w.give.campaigns && w.give.donorTotals == map[] && w.give.receiptCount == 0
    requires !w.give.paused && w.give.campaigns[1].open && env.timestamp <= w.give.campaigns[1].deadline
    requires w.give.campaigns[1].(raised := 0, donorCount := 0, donationCount := 0) == w.give.campaigns[1]
    requires w.give.campaigns[1].id == 1 && w.give.campaigns[1].beneficiary != donor && donor in env.signers
    requires w.give.campaigns[1].token in w.ledger && 0 < amount <= Balance(w.ledger, w.give.campaigns[1].token, donor)
    ensures var v, c := GiveTransact(w, env, Donate(donor, 1, amount, "")), w.give.campaigns[1];
            && Sound(v.ledger) && !v.give.paused && v.give.donorTotals == map[(1, donor) := amount]
            && v.give.campaigns == w.give.campaigns[1 := c.(raised := amount, donorCount := 1, donationCount := 1)]
  {
    MovedEffect(w.ledger, w.give.campaigns[1].token, donor, w.give.campaigns[1].beneficiary, amount);
    hide Moved, Sound, Balance;
  }

  /** Once one donor has given the largest amount there is, another unit of theirs traps, and one of anyone else's
      answers `InvalidAmount`. */
  lemma RefusedWhenFull(w: GiveWorld, env: Env, donor: Address, other: Address)
    requires Sound(w.ledger) && 1 in w.give.campaigns && w.give.donorTotals == map[(1, donor) := I128_MAX]
    requires !w.give.paused && w.give.campaigns[1].open && env.timestamp <= w.give.campaigns[1].deadline
    requires w.give.campaigns[1].raised == I128_MAX && w.give.campaigns[1].donorCount < U32_MAX
    requires donor != other && {donor, other} <= env.signers && w.give.campaigns[1].beneficiary !in {donor, other}
    requires var t := w.give.campaigns[1].token;
             t in w.ledger && 1 <= Balance(w.ledger, t, donor) && 1 <= Balance(w.ledger, t, other)
    ensures Donated(w, env, donor, 1, 1, "") == Trap(ArithmeticOverflow)
    ensures Donated(w, env, other, 1, 1, "") == Err(InvalidAmount)
  {
    MovedEffect(w.ledger, w.give.campaigns[1].token, donor, w.give.campaigns[1].beneficiary, 1);
    MovedEffect(w.ledger, w.give.campaigns[1].token, other, w.give.campaigns[1].beneficiary, 1);
    hide Moved, Sound, Balance;
  }

  /** A concrete history in which both refusals occur: a donor gives the largest amount there is, the tokens come back
      to the donors, and then one more unit from the same donor traps while one from another answers `InvalidAmount`. */
  lemma OverflowReached()
    returns (admin: Address, ledger: Ledger, h: GiveHistory, env: Env, donor: Address, other: Address)
    ensures Sound(ledger) && Sound(GiveRun(admin, ledger, h).ledger) && donor != other
    ensures Donated(GiveRun(admin, ledger, h), env, donor, 1, 1, "") == Trap(ArithmeticOverflow)
    ensures Donated(GiveRun(admin, ledger, h), env, other, 1, 1, "") == Err(InvalidAmount)
  {
    var token, charity := Address(10), Address(4);
    admin, donor, other := Address(1), Address(2), Address(3);
    env := Env({admin, donor, other}, 0, 0);
    ledger := map[token := map[donor := I128_MAX]];
    var refilled: Ledger := map[token := map[donor := 1, other := 1]];
    SumPut(map[], donor, I128_MAX);
    SumPut(map[], donor, 1);
    SumPut(map[donor := 1], other, 1);
    assert map[donor := 1][other := 1] == map[donor := 1, other := 1];
    assert Sound(ledger) && Sound(refilled);
    hide Sum, Sound;

    var create := CreateCampaign(admin, charity, token, "t", "", 1, 1);
    var give, refill := Donate(donor, 1, I128_MAX, ""), GiveAction.Elsewhere(refilled);
    var w1 := GiveTransact(GiveWorld(Deployed(admin), ledger), env, create);
    assert w1.ledger == ledger && w1.give.campaigns == map[1 := NewCampaign(1, env, create)] && !w1.give.paused;
    assert w1.give.donorTotals == map[] && w1.give.receiptCount == 0;
    FirstGift(w1, env, donor, I128_MAX);
    var w2 := GiveTransact(w1, env, give);
    var w3 := GiveTransact(w2, env, refill);
    assert w3 == w2.(ledger := refilled);
    hide GiveTransact, Donated;
    RefusedWhenFull(w3, env, donor, other);

    hide Balance;
    assert GiveRun(admin, ledger, []) == GiveWorld(Deployed(admin), ledger);
    hide GiveRun;
    RunOneMore(admin, ledger, [], env, create);
    RunOneMore(admin, ledger, [] + [(env, create)], env, give);
    h := [] + [(env, create)] + [(env, give)] + [(env, refill)];
    RunOneMore(admin, ledger, [] + [(env, create)] + [(env, give)], env, refill);
  }
}
