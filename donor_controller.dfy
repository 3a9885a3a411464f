/** The donation endpoints: `createDonation` (validation, the campaign
    state gate, the recorded donation and the campaign's running totals),
    `getAllDonations` (filter and pagination) and `getDonationStats`. */
module DonorController {
  import opened Basics
  import opened Sorting
  import opened Paging
  import opened CampaignModel
  import opened DonorModel
  import opened Store

  /** The request body of `POST /api/donors`; an omitted field is `None`. */
  datatype DonationBody = DonationBody(
    name: Option<string>,
    email: Option<string>,
    phone: Option<string>,
    amount: Option<int>,
    campaignId: Option<nat>,
    message: Option<string>,
    displayPublicly: Option<bool>)

  /** `!value` for a body string: missing or empty. */
  predicate Falsy(s: Option<string>)
  {
    s.None? || s.value == ""
  }

  /** `!name || !email || !phone || !amount || !campaignId`. */
  predicate MissingField(b: DonationBody)
  {
    Falsy(b.name) || Falsy(b.email) || Falsy(b.phone) || b.amount.None? || b.amount.value == 0 || b.campaignId.None?
  }

  /** The document `Donor.create` receives: the message defaults to '', a
      missing `displayPublicly` is left to the schema default, and the
      payment is recorded as completed. */
  function InputOf(b: DonationBody): DonationInput
    requires !MissingField(b)
  {
    DonationInput(
      b.name.value, b.email.value, b.phone.value, b.amount.value, b.campaignId.value,
      Some(if Falsy(b.message) then "" else b.message.value),
      b.displayPublicly, Some(PaymentCompleted))
  }

  const MissingFields := "Please provide all required fields"
  const CampaignNotFound := "Campaign not found"
  const NotAccepting := "This campaign is no longer accepting donations"
  const ProcessingError := "Error processing donation"

  /** The `campaign` part of the 201 answer. */
  datatype CampaignSummary = CampaignSummary(id: nat, title: string, collected: int, goal: int, progressPercentage: Option<int>)

  datatype DonationCreated = DonationCreated(donation: Donation, campaign: CampaignSummary)

  /** Reading a numeric virtual of a campaign document by name; a name the
      schema does not define reads as `undefined` (`None`), which
      `JSON.stringify` leaves out of the answer. */
  function Virtual(c: Campaign, name: string, now: int): Option<int>
  {
    if name == "percentageCompleted" then (if c.goal > 0 then Some(PercentageCompleted(c.collected, c.goal)) else None)
    else if name == "daysRemaining" then DaysRemaining(c, now)
    else None
  }

  /** The 201 answer as written reads `campaign.progressPercentage`, a
      virtual the schema does not define. */
  function SummaryAsWritten(c: Campaign, now: int): (r: CampaignSummary)
  {
    CampaignSummary(c.id, c.title, c.collected, c.goal, Virtual(c, "progressPercentage", now))
  }

  /** The 201 answer reading the `percentageCompleted` virtual. */
  function Summary(c: Campaign, now: int): (r: CampaignSummary)
  {
    CampaignSummary(c.id, c.title, c.collected, c.goal, Virtual(c, "percentageCompleted", now))
  }

  /** As written, the answer never carries a progress figure, although the
      campaign has one. */
  lemma SummaryAsWrittenHasNoProgress(c: Campaign, now: int)
    requires c.goal > 0
    ensures SummaryAsWritten(c, now).progressPercentage.None?
    ensures Virtual(c, "percentageCompleted", now).Some?
  {
  }

  /** Reading the defined virtual, the answer reports the funding progress
      of the campaign as saved: a percentage within [0, 100] that is 100
      exactly when the goal is met. */
  lemma SummaryReportsProgress(c: Campaign, now: int)
    requires c.goal >= 100 && c.collected >= 0
    ensures var p := Summary(c, now).progressPercentage;
      && p == Some(PercentageCompleted(c.collected, c.goal))
      && 0 <= p.value <= 100
      && (c.collected >= c.goal ==> p.value == 100)
  {
  }

  /** `createDonation` as a function of the stored collections: the answer
      and the new campaigns and donations. The post-save hook and the
      controller both write `collected + amount` computed from the same
      loaded value, so the campaign ends up credited once. */
  function CreateDonationSpec(cs: seq<Campaign>, ds: seq<Donation>, body: DonationBody, now: int, txnId: string)
    : (Reply<DonationCreated>, seq<Campaign>, seq<Donation>)
  {
    if MissingField(body) then (Fail(400, MissingFields), cs, ds)
    else
      var found := IndexOf(cs, body.campaignId.value);
      if found.None? then (Fail(404, CampaignNotFound), cs, ds)
      else if cs[found.value].status != Active then (Fail(400, NotAccepting), cs, ds)
      else
        var d := NewDonation(InputOf(body), now);
        if !DonationValid(d) then (Fail(500, ProcessingError), cs, ds)
        else Record(cs, ds, found.value, d, now, txnId)
  }

  /** The part of `createDonation` after the checks: the donation is
      inserted with its transaction id and campaign i is re-saved with the
      donation credited once; a failing campaign save answers 500, with the
      donation already inserted. */
  function Record(cs: seq<Campaign>, ds: seq<Donation>, i: nat, d: Donation, now: int, txnId: string)
    : (Reply<DonationCreated>, seq<Campaign>, seq<Donation>)
    requires i < |cs|
  {
    var stored := TransactionIdOnSave(d, true, txnId);
    var saved := SaveOutcome(ApplyDonation(cs[i], d.amount), false, now);
    if saved.None? then (Fail(500, ProcessingError), cs, ds + [stored])
    else (Ok(201, DonationCreated(stored, Summary(saved.value, now))), cs[i := saved.value], ds + [stored])
  }

  /** The early exits: a missing or falsy required field gives 400, an
      unknown campaign 404, a campaign that is not active 400, and an
      input the donation validators refuse 500; none of them records
      anything or touches a campaign. Only the status is consulted: an
      active campaign past its end date still takes donations. */
  lemma CreateDonationRejects(cs: seq<Campaign>, ds: seq<Donation>, body: DonationBody, now: int, txnId: string)
    ensures var (reply, cs', ds') := CreateDonationSpec(cs, ds, body, now, txnId);
      && (MissingField(body) ==> reply == Fail(400, MissingFields) && cs' == cs && ds' == ds)
      && (!MissingField(body) && IndexOf(cs, body.campaignId.value).None? ==>
            reply == Fail(404, CampaignNotFound) && cs' == cs && ds' == ds)
      && (!MissingField(body) && IndexOf(cs, body.campaignId.value).Some?
          && cs[IndexOf(cs, body.campaignId.value).value].status != Active ==>
            reply == Fail(400, NotAccepting) && cs' == cs && ds' == ds)
      && (!MissingField(body) && IndexOf(cs, body.campaignId.value).Some?
          && cs[IndexOf(cs, body.campaignId.value).value].status == Active
          && !DonationValid(NewDonation(InputOf(body), now)) ==>
            reply == Fail(500, ProcessingError) && cs' == cs && ds' == ds)
      && (reply.Ok? ==>
            !MissingField(body) && IndexOf(cs, body.campaignId.value).Some?
            && cs[IndexOf(cs, body.campaignId.value).value].status == Active)
  {
  }

  /** Crediting a donation of at least 1 to a stored active campaign and
      re-saving it succeeds: the campaign gains the amount and one donor,
      is completed when that meets its goal, is cancelled when it is still
      short of it and expired, and nothing else about it changes. */
  lemma CreditRules(c: Campaign, amount: int, now: int)
    requires SchemaValid(c) && c.status == Active && amount >= 1
    ensures SaveOutcome(ApplyDonation(c, amount), false, now).Some?
    ensures var r := SaveOutcome(ApplyDonation(c, amount), false, now).value;
      && r.collected == c.collected + amount
      && r.donorCount == c.donorCount + 1
      && (r.collected >= c.goal ==> r.status == Completed)
      && (r.collected < c.goal ==> r.status == (if IsExpired(c, now) then Cancelled else Active))
      && r == c.(collected := r.collected, donorCount := r.donorCount, status := r.status)
  {
    var a := ApplyDonation(c, amount);
    ResaveKeepsValid(a, now);
    StatusHookRules(a, now);
  }

  /** A donation that gets past every check is recorded as `Record`
      describes it. */
  lemma CreateDonationShape(cs: seq<Campaign>, ds: seq<Donation>, body: DonationBody, now: int, txnId: string)
    requires !MissingField(body) && IndexOf(cs, body.campaignId.value).Some?
    requires cs[IndexOf(cs, body.campaignId.value).value].status == Active
    requires DonationValid(NewDonation(InputOf(body), now))
    ensures CreateDonationSpec(cs, ds, body, now, txnId)
         == Record(cs, ds, IndexOf(cs, body.campaignId.value).value, NewDonation(InputOf(body), now), now, txnId)
  {
  }

  /** The donation built from a complete body: completed, with the amount
      and campaign the body names, shown publicly unless the body says
      otherwise, and stored with the transaction id handed to it. */
  lemma NewDonationFromBody(body: DonationBody, now: int, txnId: string)
    requires !MissingField(body)
    ensures var stored := TransactionIdOnSave(NewDonation(InputOf(body), now), true, txnId);
      && stored.paymentStatus == PaymentCompleted
      && stored.amount == body.amount.value
      && stored.campaignId == body.campaignId.value
      && stored.displayPublicly == (body.displayPublicly.None? || body.displayPublicly.value)
      && stored.transactionId == Some(txnId)
  {
  }

  /** Recording a donation of at least 1 for a stored active campaign
      inserts it once with its transaction id; the campaign gains the amount
      and one donor, becomes completed when that meets the goal, and the
      answer reports the new total and the goal. No other campaign
      changes. */
  lemma RecordCredits(cs: seq<Campaign>, ds: seq<Donation>, i: nat, d: Donation, now: int, txnId: string)
    requires i < |cs| && SchemaValid(cs[i]) && cs[i].status == Active && d.amount >= 1
    ensures var (reply, cs', ds') := Record(cs, ds, i, d, now, txnId);
      && reply.Ok? && reply.code == 201
      && ds' == ds + [TransactionIdOnSave(d, true, txnId)]
      && reply.data.donation == TransactionIdOnSave(d, true, txnId)
      && |cs'| == |cs|
      && (forall j | 0 <= j < |cs| && j != i :: cs'[j] == cs[j])
      && cs'[i].collected == cs[i].collected + d.amount
      && cs'[i].donorCount == cs[i].donorCount + 1
      && (cs'[i].collected >= cs[i].goal ==> cs'[i].status == Completed)
      && (cs'[i].collected < cs[i].goal ==> cs'[i].status == (if IsExpired(cs[i], now) then Cancelled else Active))
      && cs'[i] == cs[i].(collected := cs'[i].collected, donorCount := cs'[i].donorCount, status := cs'[i].status)
      && reply.data.campaign.collected == cs'[i].collected && reply.data.campaign.goal == cs[i].goal
  {
    CreditRules(cs[i], d.amount, now);
  }

  /** Whatever the request, the stored state stays valid and the ledger
      stays balanced: every campaign's totals are still exactly its
      completed donations. */
  lemma CreateDonationKeepsLedger(cs: seq<Campaign>, ds: seq<Donation>, nextId: nat, body: DonationBody, now: int, txnId: string)
    requires StoreValid(cs, ds, nextId) && Reconciled(cs, ds)
    ensures var (_, cs', ds') := CreateDonationSpec(cs, ds, body, now, txnId);
      StoreValid(cs', ds', nextId) && Reconciled(cs', ds')
  {
    if !MissingField(body) && IndexOf(cs, body.campaignId.value).Some? {
      var i := IndexOf(cs, body.campaignId.value).value;
      var d := NewDonation(InputOf(body), now);
      if cs[i].status == Active && DonationValid(d) {
        CreateDonationShape(cs, ds, body, now, txnId);
        NewDonationFromBody(body, now, txnId);
        RecordKeepsLedger(cs, ds, nextId, i, d, now, txnId);
      }
    }
  }

  /** Recording a completed donation for stored active campaign i keeps the
      state valid and the ledger balanced. */
  lemma RecordKeepsLedger(cs: seq<Campaign>, ds: seq<Donation>, nextId: nat, i: nat, d: Donation, now: int, txnId: string)
    requires StoreValid(cs, ds, nextId) && Reconciled(cs, ds)
    requires i < |cs| && cs[i].status == Active && d.amount >= 1
    requires var stored := TransactionIdOnSave(d, true, txnId);
      stored.campaignId == cs[i].id && IsCompleted(stored)
    ensures var (_, cs', ds') := Record(cs, ds, i, d, now, txnId);
      StoreValid(cs', ds', nextId) && Reconciled(cs', ds')
  {
    CreditRules(cs[i], d.amount, now);
    var r := SaveOutcome(ApplyDonation(cs[i], d.amount), false, now).value;
    CreditedKeepsLedger(cs, ds, nextId, i, r, TransactionIdOnSave(d, true, txnId));
  }

  /** Replacing campaign i by one that gained exactly the amount and the
      donor of a completed donation recorded for it keeps the state valid
      and the ledger balanced. */
  lemma CreditedKeepsLedger(cs: seq<Campaign>, ds: seq<Donation>, nextId: nat, i: nat, r: Campaign, d: Donation)
    requires StoreValid(cs, ds, nextId) && Reconciled(cs, ds)
    requires i < |cs| && r.id == cs[i].id && SchemaValid(r)
    requires d.campaignId == cs[i].id && IsCompleted(d)
    requires r.collected == cs[i].collected + d.amount && r.donorCount == cs[i].donorCount + 1
    ensures StoreValid(cs[i := r], ds + [d], nextId) && Reconciled(cs[i := r], ds + [d])
  {
    var cs' := cs[i := r];
    forall j | 0 <= j < |cs'|
      ensures cs'[j].collected == Credited(ds + [d], cs'[j].id) && cs'[j].donorCount == DonorsOf(ds + [d], cs'[j].id)
    {
      LedgerAppend(ds, d, cs[j].id);
    }
  }

  /** The post-save hook on the insert of a completed donation for campaign
      i re-saves that campaign with the donation applied, or leaves the
      campaigns as they were when that save fails. */
  lemma HookCreditsStored(cs: seq<Campaign>, i: nat, d: Donation, now: int)
    requires IndexOf(cs, d.campaignId) == Some(i) && IsCompleted(d)
    ensures var saved := SaveOutcome(ApplyDonation(cs[i], d.amount), false, now);
      HookOutcome(cs, d, true, now) == if saved.None? then cs else cs[i := saved.value]
  {
  }

  /** A campaign save where the controller also sets `status = 'completed'`
      on a funded active campaign writes what the status hook alone would. */
  lemma ControllerCompletionAgrees(c: Campaign, now: int)
    requires c.status == Active
    ensures StatusOnSave(if c.collected >= c.goal then c.(status := Completed) else c, now) == StatusOnSave(c, now)
    ensures SaveOutcome(if c.collected >= c.goal then c.(status := Completed) else c, false, now) == SaveOutcome(c, false, now)
  {
  }

  /** `createDonation`, step by step: the checks, `Donor.create` (its
      validators, its transaction-id hook, the insert and the post-save
      hook that credits the campaign), then the controller's own update of
      the copy of the campaign it loaded before the insert and its save,
      which writes the paths it modified. */
  method CreateDonation(db: Database, body: DonationBody, now: int, txnId: string) returns (reply: Reply<DonationCreated>)
    modifies db
    ensures (reply, db.campaigns, db.donations) == CreateDonationSpec(old(db.campaigns), old(db.donations), body, now, txnId)
    ensures db.admins == old(db.admins) && db.nextId == old(db.nextId)
    ensures old(db.Valid() && Reconciled(db.campaigns, db.donations)) ==> db.Valid() && Reconciled(db.campaigns, db.donations)
  {
    if db.Valid() && Reconciled(db.campaigns, db.donations) {
      CreateDonationKeepsLedger(db.campaigns, db.donations, db.nextId, body, now, txnId);
    }
    if MissingField(body) {
      return Fail(400, MissingFields);
    }
    var found := IndexOf(db.campaigns, body.campaignId.value);
    if found.None? {
      return Fail(404, CampaignNotFound);
    }
    var campaign := db.campaigns[found.value];
    if campaign.status != Active {
      return Fail(400, NotAccepting);
    }
    var donor := NewDonation(InputOf(body), now);
    if !DonationValid(donor) {
      return Fail(500, ProcessingError);
    }
    assert CreateDonationSpec(db.campaigns, db.donations, body, now, txnId)
        == Record(db.campaigns, db.donations, found.value, donor, now, txnId);
    reply := RecordDonation(db, found.value, donor, now, txnId);
  }

  /** The part of `createDonation` after the checks: `Donor.create` (its
      transaction-id hook, the insert and the post-save hook that credits
      the campaign), then the controller's own update of the copy of
      campaign i it loaded before the insert, and its save, which writes the
      paths it modified. */
  method RecordDonation(db: Database, i: nat, donor: Donation, now: int, txnId: string) returns (reply: Reply<DonationCreated>)
    requires IndexOf(db.campaigns, donor.campaignId) == Some(i)
    requires db.campaigns[i].status == Active && IsCompleted(donor) && DonationValid(donor)
    modifies db
    ensures (reply, db.campaigns, db.donations) == Record(old(db.campaigns), old(db.donations), i, donor, now, txnId)
    ensures db.admins == old(db.admins) && db.nextId == old(db.nextId)
  {
    ghost var cs0, ds0 := db.campaigns, db.donations;
    var loaded := db.campaigns[i];
    var stored := db.InsertDonation(donor, now, txnId);
    HookCreditsStored(cs0, i, stored, now);
    ghost var credited := db.campaigns;
    var saved := SaveLoadedCopy(db, i, loaded, stored.amount, now);
    if saved.None? {
      assert Record(cs0, ds0, i, donor, now, txnId) == (Fail(500, ProcessingError), cs0, ds0 + [stored]);
      return Fail(500, ProcessingError);
    }
    assert credited[i] == saved.value;
    assert db.campaigns == cs0[i := saved.value];
    reply := Ok(201, DonationCreated(stored, Summary(saved.value, now)));
    assert Record(cs0, ds0, i, donor, now, txnId) == (reply, cs0[i := saved.value], ds0 + [stored]);
  }

  /** The controller's own update of the copy of campaign i it loaded before
      the insert: the amount and one donor added, completed when that meets
      the goal, then saved, which writes only the paths it modified over
      whatever is stored by then. The result is what the save validated and
      wrote, `None` when a validator refused it. */
  method SaveLoadedCopy(db: Database, i: nat, loaded: Campaign, amount: int, now: int) returns (saved: Option<Campaign>)
    requires i < |db.campaigns| && loaded.status == Active
    modifies db
    ensures saved == SaveOutcome(ApplyDonation(loaded, amount), false, now)
    ensures saved.None? ==> db.campaigns == old(db.campaigns)
    ensures saved.Some? ==>
      var written := old(db.campaigns)[i].(collected := saved.value.collected, donorCount := saved.value.donorCount);
      db.campaigns == old(db.campaigns)[i := if saved.value.status != loaded.status then written.(status := saved.value.status) else written]
    ensures db.donations == old(db.donations) && db.admins == old(db.admins) && db.nextId == old(db.nextId)
  {
    var campaign := loaded;
    campaign := campaign.(collected := campaign.collected + amount);
    campaign := campaign.(donorCount := campaign.donorCount + 1);
    if campaign.collected >= campaign.goal {
      campaign := campaign.(status := Completed);
    }
    ControllerCompletionAgrees(ApplyDonation(loaded, amount), now);
    saved := SaveOutcome(campaign, false, now);
    if saved.Some? {
      var current := db.campaigns[i];
      current := current.(collected := saved.value.collected, donorCount := saved.value.donorCount);
      if saved.value.status != loaded.status {
        current := current.(status := saved.value.status);
      }
      db.campaigns := db.campaigns[i := current];
    }
  }

  /** The query of `GET /api/donors`; `None` stands for a missing or
      unparsable value. */
  datatype DonationQuery = DonationQuery(campaignId: Option<nat>, limit: Option<int>, page: Option<int>)

  /** `getAllDonations`: the donations (of one campaign when asked), newest
      first, one page of them; page defaults to 1 and limit to 50 (also for
      0); a negative skip is refused by MongoDB (500). */
  function AllDonations(ds: seq<Donation>, q: DonationQuery): Reply<Listing<Donation>>
  {
    var page := Paginate(SortDesc(Requested(ds, q), ByDate), OrDefault(q.page, 1), OrDefault(q.limit, 50));
    if page.None? then Fail(500, "Error fetching donations") else Ok(200, page.value)
  }

  /** The donations `getAllDonations` filters on: those of the requested
      campaign, when one is given. */
  function Requested(ds: seq<Donation>, q: DonationQuery): seq<Donation>
  {
    if q.campaignId.Some? then Filter(ds, (d: Donation) => d.campaignId == q.campaignId.value) else ds
  }

  /** The filter keeps exactly the donations of the requested campaign, or
      every donation when none is requested. */
  lemma RequestedSelects(ds: seq<Donation>, q: DonationQuery, x: Donation)
    ensures x in Requested(ds, q) <==> x in ds && (q.campaignId.None? || x.campaignId == q.campaignId.value)
  {
    if q.campaignId.Some? && x in ds && x.campaignId == q.campaignId.value {
      FilterKeeps(ds, (d: Donation) => d.campaignId == q.campaignId.value, x);
    }
  }

  /** With no page or limit given, the first page of 50 is served; every
      page holds at most `limit` donations, `total` counts every donation
      the filter selects and `pages` is the number of pages of `limit` that
      hold them. */
  lemma AllDonationsEnvelope(ds: seq<Donation>, q: DonationQuery)
    requires OrDefault(q.page, 1) >= 1 && OrDefault(q.limit, 50) > 0
    ensures var r := AllDonations(ds, q);
      var limit := OrDefault(q.limit, 50);
      && r.Ok? && r.code == 200
      && (q.page.None? && q.limit.None? ==> r.data.page == 1 && r.data.count <= 50)
      && r.data.count == |r.data.items| <= limit
      && r.data.total == |Requested(ds, q)|
      && r.data.pages == Some(CeilDiv(|Requested(ds, q)|, limit))
  {
    PaginateProperties(SortDesc(Requested(ds, q), ByDate), OrDefault(q.page, 1), OrDefault(q.limit, 50));
    assert AllDonations(ds, q) == Ok(200, Paginate(SortDesc(Requested(ds, q), ByDate), OrDefault(q.page, 1), OrDefault(q.limit, 50)).value);
  }

  /** A page holds only donations the filter selects, newest first. */
  lemma AllDonationsItems(ds: seq<Donation>, q: DonationQuery)
    requires OrDefault(q.page, 1) >= 1 && OrDefault(q.limit, 50) > 0
    ensures AllDonations(ds, q).Ok?
    ensures var items := AllDonations(ds, q).data.items;
      && (forall i | 0 <= i < |items| :: items[i] in Requested(ds, q))
      && (forall i, j | 0 <= i < j < |items| :: items[i].date >= items[j].date)
  {
    var matching := Requested(ds, q);
    var page := OrDefault(q.page, 1);
    var limit := OrDefault(q.limit, 50);
    SortedPageProperties(matching, ByDate, page, limit);
    assert AllDonations(ds, q) == Ok(200, Paginate(SortDesc(matching, ByDate), page, limit).value);
    var items := Paginate(SortDesc(matching, ByDate), page, limit).value.items;
    forall i | 0 <= i < |items| ensures items[i] in matching {
      assert items[i] in items;
    }
    forall i, j | 0 <= i < j < |items| ensures items[i].date >= items[j].date {
      assert AtLeast(ByDate(items[i]), ByDate(items[j]));
    }
  }

  predicate NotCompleted(d: Donation) { !IsCompleted(d) }

  /** The document `getDonationStats` returns. */
  datatype DonationStats = DonationStats(totalDonations: nat, totalAmount: int, recentDonations: seq<Donation>)

  /** `getDonationStats`: unlike `Donor.getStatistics`, it counts and sums
      every donation whatever its payment status, and lists the ten newest. */
  function DonationStatsOf(ds: seq<Donation>): DonationStats
  {
    DonationStats(|ds|, Sum(ds, Amount), NewestFirst(ds, 10))
  }

  /** The public figures include pending, failed and refunded donations:
      the total is the completed total of `getStatistics` plus the amounts
      of every other donation; the ten newest donations are listed (all of
      them when there are fewer), newest first, and one that is not listed
      is no newer than the tenth. */
  lemma DonationStatsCountsEverything(ds: seq<Donation>)
    ensures var st := DonationStatsOf(ds);
      && st.totalDonations == |ds| >= DonorModel.Statistics(ds).totalDonations
      && st.totalAmount == DonorModel.Statistics(ds).totalAmount + Sum(Filter(ds, NotCompleted), Amount)
      && |st.recentDonations| == Min(10, |ds|)
      && (forall i, j | 0 <= i < j < |st.recentDonations| :: st.recentDonations[i].date >= st.recentDonations[j].date)
      && (forall d | d in ds && d !in st.recentDonations :: |st.recentDonations| == 10 && st.recentDonations[9].date >= d.date)
  {
    SumSplit(ds, IsCompleted, NotCompleted, Amount);
    NewestFirstProperties(ds, 10);
  }
}
