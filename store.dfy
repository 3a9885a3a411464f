/** The database the controllers share: the campaigns, donations and admins
    collections, held in insertion order, and the id generator that stands
    for MongoDB's ObjectIds. The Admin model is not part of this model; an
    admin keeps only the fields the controllers and the auth middleware
    read. */
module Store {
  import opened Basics
  import opened CampaignModel
  import opened DonorModel

  datatype Role = AdminRole | SuperAdmin

  /** An admin document; `password` holds what the (unseen) model stores. */
  datatype Admin = Admin(id: nat, email: string, password: string, name: string, role: Role, isActive: bool, lastLogin: Option<int>)

  /** An admin as `select('-password')` returns it. */
  datatype AdminView = AdminView(id: nat, email: string, name: string, role: Role, isActive: bool, lastLogin: Option<int>)

  function View(a: Admin): AdminView
  {
    AdminView(a.id, a.email, a.name, a.role, a.isActive, a.lastLogin)
  }

  /** An HTTP answer: a success status with its payload, or an error status
      with its message. */
  datatype Reply<T> = Ok(code: int, data: T) | Fail(code: int, message: string)

  /** `findById` on the campaigns collection: the position of the campaign
      with that id, if any. */
  function IndexOf(cs: seq<Campaign>, id: nat): (r: Option<nat>)
    ensures r.Some? ==> r.value < |cs| && cs[r.value].id == id
    ensures r.None? ==> forall i | 0 <= i < |cs| :: cs[i].id != id
  {
    if cs == [] then None
    else if cs[0].id == id then Some(0)
    else
      var r := IndexOf(cs[1..], id);
      if r.None? then None else Some(r.value + 1)
  }

  /** The sum of the completed donations recorded for campaign `id`. */
  function Credited(ds: seq<Donation>, id: nat): int
  {
    if ds == [] then 0
    else
      var d := ds[|ds| - 1];
      Credited(ds[..|ds| - 1], id) + (if d.campaignId == id && IsCompleted(d) then d.amount else 0)
  }

  /** The number of completed donations recorded for campaign `id`. */
  function DonorsOf(ds: seq<Donation>, id: nat): nat
  {
    if ds == [] then 0
    else
      var d := ds[|ds| - 1];
      DonorsOf(ds[..|ds| - 1], id) + (if d.campaignId == id && IsCompleted(d) then 1 else 0)
  }

  /** Recording one more donation adds its amount and one donor to the
      campaign it names, when it is completed, and nothing to any other. */
  lemma LedgerAppend(ds: seq<Donation>, d: Donation, id: nat)
    ensures Credited(ds + [d], id) == Credited(ds, id) + (if d.campaignId == id && IsCompleted(d) then d.amount else 0)
    ensures DonorsOf(ds + [d], id) == DonorsOf(ds, id) + (if d.campaignId == id && IsCompleted(d) then 1 else 0)
  {
    assert (ds + [d])[..|ds|] == ds;
  }

  /** A campaign id no recorded donation names has nothing credited. */
  lemma {:induction false} NothingCredited(ds: seq<Donation>, id: nat)
    requires forall k | 0 <= k < |ds| :: ds[k].campaignId != id
    ensures Credited(ds, id) == 0 && DonorsOf(ds, id) == 0
    decreases |ds|
  {
    if ds != [] {
      NothingCredited(ds[..|ds| - 1], id);
    }
  }

  predicate DistinctIds(cs: seq<Campaign>)
  {
    forall i, j | 0 <= i < j < |cs| :: cs[i].id != cs[j].id
  }

  /** What every stored state satisfies: campaign ids are distinct and were
      handed out by the generator, stored campaigns pass the validators, and
      every donation names an id the generator has handed out (its campaign
      may since have been deleted). */
  predicate StoreValid(cs: seq<Campaign>, ds: seq<Donation>, nextId: nat)
  {
    && DistinctIds(cs)
    && (forall i | 0 <= i < |cs| :: cs[i].id < nextId && SchemaValid(cs[i]))
    && (forall k | 0 <= k < |ds| :: ds[k].campaignId < nextId)
  }

  /** The ledger balances: each campaign's `collected` and `donorCount` are
      exactly the sum and the number of the completed donations recorded for
      it. */
  predicate Reconciled(cs: seq<Campaign>, ds: seq<Donation>)
  {
    forall i | 0 <= i < |cs| :: cs[i].collected == Credited(ds, cs[i].id) && cs[i].donorCount == DonorsOf(ds, cs[i].id)
  }

  /** Replacing a stored campaign by a valid one with the same id and the
      same money counters keeps the store valid and the ledger balanced. */
  lemma ReplaceKeepsLedger(cs: seq<Campaign>, ds: seq<Donation>, nextId: nat, i: nat, c: Campaign)
    requires StoreValid(cs, ds, nextId) && Reconciled(cs, ds)
    requires i < |cs| && SchemaValid(c)
    requires c.id == cs[i].id && c.collected == cs[i].collected && c.donorCount == cs[i].donorCount
    ensures StoreValid(cs[i := c], ds, nextId) && Reconciled(cs[i := c], ds)
  {
    var cs' := cs[i := c];
    assert forall j | 0 <= j < |cs'| :: cs'[j].id == cs[j].id;
  }

  /** The donation post-save hook as a function of the campaigns: the
      campaign the donation names, if it exists and the hook credits this
      save, is re-saved with the amount and one donor added; a failed save
      is caught and logged, leaving the campaign as it was. */
  function HookOutcome(cs: seq<Campaign>, d: Donation, inserted: bool, now: int): (r: seq<Campaign>)
    ensures |r| == |cs|
  {
    var i := IndexOf(cs, d.campaignId);
    if i.None? || !HookCredits(d, inserted) then cs
    else
      var saved := SaveOutcome(ApplyDonation(cs[i.value], d.amount), false, now);
      if saved.None? then cs else cs[i.value := saved.value]
  }

  /** The guarded hook credits the inserted completed donation to its
      campaign once: `collected` grows by the amount and `donorCount` by one,
      the status is settled by the status hook, and every other campaign is
      untouched. A donation that is not completed, or a save that does not
      insert, leaves every campaign as it was. */
  lemma HookOutcomeCredits(cs: seq<Campaign>, d: Donation, inserted: bool, now: int)
    requires DistinctIds(cs)
    requires forall i | 0 <= i < |cs| :: SchemaValid(cs[i])
    requires d.amount >= 1
    ensures var r := HookOutcome(cs, d, inserted, now);
      && (!HookCredits(d, inserted) ==> r == cs)
      && forall i | 0 <= i < |cs| ::
           if cs[i].id == d.campaignId && HookCredits(d, inserted)
           then r[i] == StatusOnSave(ApplyDonation(cs[i], d.amount), now)
                && r[i].collected == cs[i].collected + d.amount
                && r[i].donorCount == cs[i].donorCount + 1
           else r[i] == cs[i]
  {
    var i := IndexOf(cs, d.campaignId);
    if i.Some? && HookCredits(d, inserted) {
      var c := ApplyDonation(cs[i.value], d.amount);
      ResaveKeepsValid(c, now);
    }
  }

  /** The post-save hook as written: with no first-save guard, any save of
      a completed donation credits its campaign as an insert would. */
  function HookOutcomeAsWritten(cs: seq<Campaign>, d: Donation, inserted: bool, now: int): (r: seq<Campaign>)
    ensures |r| == |cs|
    ensures !IsCompleted(d) ==> r == cs
  {
    if HookCreditsAsWritten(d, inserted) then HookOutcome(cs, d, true, now) else cs
  }

  /** Re-saving a stored completed donation of a balanced ledger (to set
      `receiptSent`, say) credits its campaign a second time under the hook
      as written: `collected` then exceeds the completed donations recorded
      for it by the amount, and the ledger no longer balances. The guarded
      hook leaves the campaigns alone. */
  lemma ResaveCreditsTwice(cs: seq<Campaign>, ds: seq<Donation>, nextId: nat, d: Donation, now: int)
    requires StoreValid(cs, ds, nextId) && Reconciled(cs, ds)
    requires d in ds && IsCompleted(d) && d.amount >= 1
    requires IndexOf(cs, d.campaignId).Some?
    ensures var r := HookOutcomeAsWritten(cs, d, false, now);
      var i := IndexOf(cs, d.campaignId).value;
      && r[i].id == d.campaignId
      && r[i].collected == Credited(ds, d.campaignId) + d.amount
      && !Reconciled(r, ds)
    ensures HookOutcome(cs, d, false, now) == cs
  {
    var i := IndexOf(cs, d.campaignId).value;
    HookOutcomeCredits(cs, d, true, now);
    HookOutcomeCredits(cs, d, false, now);
    var r := HookOutcomeAsWritten(cs, d, false, now);
    assert r == HookOutcome(cs, d, true, now);
    assert r[i] == StatusOnSave(ApplyDonation(cs[i], d.amount), now);
    assert r[i].collected == Credited(ds, r[i].id) + d.amount;
  }

  /** The stored collections. */
  class Database {
    var campaigns: seq<Campaign>
    var donations: seq<Donation>
    var admins: seq<Admin>
    var nextId: nat

    constructor ()
      ensures campaigns == [] && donations == [] && admins == [] && nextId == 0
      ensures Valid() && Reconciled(campaigns, donations)
    {
      campaigns := [];
      donations := [];
      admins := [];
      nextId := 0;
    }

    predicate Valid()
      reads this
    {
      StoreValid(campaigns, donations, nextId)
    }

    /** `Donor.create` on a donation that passes the validators: the
        transaction-id hook, the insert, then the post-save hook. */
    method InsertDonation(d: Donation, now: int, txnId: string) returns (stored: Donation)
      requires DonationValid(d)
      modifies this
      ensures stored == TransactionIdOnSave(d, true, txnId)
      ensures donations == old(donations) + [stored]
      ensures campaigns == HookOutcome(old(campaigns), stored, true, now)
      ensures admins == old(admins) && nextId == old(nextId)
    {
      stored := TransactionIdOnSave(d, true, txnId);
      donations := donations + [stored];
      CreditCampaign(stored, true, now);
    }

    /** The donation post-save hook, with the guard that it credit only the
        save that inserted the donation. */
    method CreditCampaign(d: Donation, inserted: bool, now: int)
      modifies this
      ensures campaigns == HookOutcome(old(campaigns), d, inserted, now)
      ensures donations == old(donations) && admins == old(admins) && nextId == old(nextId)
    {
      var i := IndexOf(campaigns, d.campaignId);
      if i.Some? && HookCredits(d, inserted) {
        var campaign := campaigns[i.value];
        campaign := campaign.(collected := campaign.collected + d.amount);
        campaign := campaign.(donorCount := campaign.donorCount + 1);
        var saved := SaveOutcome(campaign, false, now);
        if saved.Some? {
          campaigns := campaigns[i.value := saved.value];
        }
      }
    }
  }
}
