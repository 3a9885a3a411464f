/** The Donor (donation) document: schema constraints and defaults, the
    pre-save transaction-id rule, what the post-save hook credits to the
    campaign, and the reporting statics `getStatistics`, `getByCampaign`,
    `getRecentDonations` and `getTopDonors`. */
module DonorModel {
  import opened Basics
  import opened Text
  import opened Sorting
  import opened Paging

  datatype PaymentStatus = PaymentPending | PaymentCompleted | PaymentFailed | PaymentRefunded

  function PaymentStatusName(p: PaymentStatus): string
  {
    match p
    case PaymentPending => "pending"
    case PaymentCompleted => "completed"
    case PaymentFailed => "failed"
    case PaymentRefunded => "refunded"
  }

  datatype PaymentMethod = Card | Upi | Netbanking | Wallet | OtherMethod

  /** A donation document, string paths after their `trim`/`lowercase`
      setters. A missing `message` or `transactionId` is `None` (null). */
  datatype Donation = Donation(
    name: string,
    email: string,
    phone: string,
    amount: int,
    campaignId: nat,
    message: Option<string>,
    displayPublicly: bool,
    paymentStatus: PaymentStatus,
    paymentMethod: PaymentMethod,
    transactionId: Option<string>,
    receiptSent: bool,
    date: int,
    createdAt: int)

  /** The fields a caller passes to `Donor.create`; an omitted optional
      field is `None` and takes the schema default. */
  datatype DonationInput = DonationInput(
    name: string,
    email: string,
    phone: string,
    amount: int,
    campaignId: nat,
    message: Option<string>,
    displayPublicly: Option<bool>,
    paymentStatus: Option<PaymentStatus>)

  /** The normalised e-mail: the `lowercase` then `trim` setters. */
  function NormaliseEmail(s: string): string
  {
    Trim(Lower(s))
  }

  /** A new document built from the input: setters applied, and the schema
      defaults (shown publicly, payment completed, method 'other', no
      transaction id, receipt not sent, dated now). */
  function NewDonation(inp: DonationInput, now: int): Donation
  {
    Donation(
      Trim(inp.name), NormaliseEmail(inp.email), Trim(inp.phone), inp.amount, inp.campaignId,
      if inp.message.Some? then Some(Trim(inp.message.value)) else None,
      if inp.displayPublicly.Some? then inp.displayPublicly.value else true,
      if inp.paymentStatus.Some? then inp.paymentStatus.value else PaymentCompleted,
      OtherMethod, None, false, now, now)
  }

  /** The schema validators: required non-empty name (at most 100
      characters), e-mail matching the pattern, phone, an amount of at least
      1, and a message of at most 500 characters. */
  predicate DonationValid(d: Donation)
  {
    && 0 < |d.name| <= 100
    && 0 < |d.email| && IsEmailShaped(d.email)
    && 0 < |d.phone|
    && d.amount >= 1
    && (d.message.None? || |d.message.value| <= 500)
  }

  /** The defaults the schema fills in, and the stored e-mail is already
      trimmed and lowercase whatever the caller sent. */
  lemma NewDonationDefaults(inp: DonationInput, now: int)
    ensures var d := NewDonation(inp, now);
      && (inp.displayPublicly.None? ==> d.displayPublicly)
      && (inp.paymentStatus.None? ==> d.paymentStatus == PaymentCompleted)
      && d.transactionId.None? && !d.receiptSent && d.date == now
      && Lower(d.email) == d.email && Trim(d.email) == d.email
  {
    TrimLowerIsNormal(inp.email);
  }

  /** `!this.transactionId`: no id, or the empty one. */
  predicate LacksTransactionId(d: Donation)
  {
    d.transactionId.None? || d.transactionId.value == ""
  }

  /** The pre-save hook: a new document without a transaction id receives
      the fresh one; any other document keeps the id it has. */
  function TransactionIdOnSave(d: Donation, isNew: bool, newId: string): Donation
  {
    if isNew && LacksTransactionId(d) then d.(transactionId := Some(newId)) else d
  }

  /** The transaction-id hook only ever fills a missing id of a new
      document: an existing id is never replaced, a document that is not new
      is never touched, and nothing else changes. */
  lemma TransactionIdRules(d: Donation, isNew: bool, newId: string)
    ensures var r := TransactionIdOnSave(d, isNew, newId);
      && r == d.(transactionId := r.transactionId)
      && (!LacksTransactionId(d) || !isNew ==> r == d)
      && (isNew && LacksTransactionId(d) ==> r.transactionId == Some(newId))
      && TransactionIdOnSave(r, false, newId) == r
  {
  }

  /** Whether the post-save hook credits the donation's amount to its
      campaign, as written: on every save of a completed donation. */
  predicate HookCreditsAsWritten(d: Donation, isNew: bool)
  {
    d.paymentStatus == PaymentCompleted
  }

  /** The hook with the first-save guard it evidently needs: only the save
      that inserts a completed donation credits it. */
  predicate HookCredits(d: Donation, isNew: bool)
  {
    isNew && d.paymentStatus == PaymentCompleted
  }

  predicate IsCompleted(d: Donation) { d.paymentStatus == PaymentCompleted }

  function Amount(d: Donation): int { d.amount }

  predicate IsPublicCompleted(d: Donation) { d.paymentStatus == PaymentCompleted && d.displayPublicly }

  /** The sort key of `sort({ date: -1 })`. */
  function ByDate(d: Donation): SortKey { SortKey(d.date, 0) }

  /** The distinct e-mails of a list of donations (`$addToSet: '$email'`). */
  function Emails(s: seq<Donation>): (es: set<string>)
    ensures |es| <= |s|
    decreases |s|
  {
    if s == [] then {} else Emails(s[..|s| - 1]) + {s[|s| - 1].email}
  }

  /** An e-mail is among the distinct ones exactly when some donation
      carries it. */
  lemma {:induction false} EmailsMembership(s: seq<Donation>, e: string)
    ensures e in Emails(s) <==> exists d | d in s :: d.email == e
    decreases |s|
  {
    if s != [] {
      var prefix := s[..|s| - 1];
      assert s == prefix + [s[|s| - 1]];
      EmailsMembership(prefix, e);
      if e in Emails(prefix) {
        var d :| d in prefix && d.email == e;
        assert d in s;
      }
    }
  }

  /** The document `Donor.getStatistics` returns, without the floating
      average. */
  datatype DonationStatistics = DonationStatistics(totalDonations: nat, totalAmount: int, totalDonors: nat)

  /** `getStatistics`: over the completed donations only, their number,
      the sum of their amounts and the number of distinct donor e-mails. */
  function Statistics(ds: seq<Donation>): DonationStatistics
  {
    var done := Filter(ds, IsCompleted);
    DonationStatistics(|done|, Sum(done, Amount), |Emails(done)|)
  }

  /** Pending, failed and refunded donations do not count; the distinct
      donors never outnumber the donations; with nothing completed every
      figure is zero; amounts of at least 1 give a total no smaller than the
      number of donations. */
  lemma StatisticsProperties(ds: seq<Donation>)
    ensures var st := Statistics(ds);
      && st.totalDonations == Count(ds, IsCompleted)
      && st.totalDonors <= st.totalDonations
      && (st.totalDonations == 0 ==> st == DonationStatistics(0, 0, 0))
      && ((forall i | 0 <= i < |ds| :: ds[i].amount >= 1) ==> st.totalAmount >= st.totalDonations)
  {
    CountIsFilterLength(ds, IsCompleted);
    var done := Filter(ds, IsCompleted);
    if forall i | 0 <= i < |ds| :: ds[i].amount >= 1 {
      forall i | 0 <= i < |done| ensures done[i].amount - 1 >= 0 {
        assert done[i] in done;
      }
      SumShift(done);
    }
  }

  /** Sum of the amounts minus one each. */
  lemma {:induction false} SumShift(s: seq<Donation>)
    requires forall i | 0 <= i < |s| :: s[i].amount - 1 >= 0
    ensures Sum(s, Amount) >= |s|
    decreases |s|
  {
    if s != [] {
      SumShift(s[..|s| - 1]);
    }
  }

  /** `find(..).sort({ date: -1 }).limit(limit)` over the donations s: as
      many donations as the limit allows (MongoDB reads a negative limit as
      its absolute value, and 0 as no limit). */
  function NewestFirst(s: seq<Donation>, limit: int): (w: seq<Donation>)
    ensures |w| == if limit == 0 then |s| else Min(Abs(limit), |s|)
  {
    Window(SortDesc(s, ByDate), 0, limit)
  }

  /** The newest-first window holds donations of s only, newest first, and
      exactly min(|limit|, |s|) of them (all when the limit is 0); a
      donation of s it leaves out was left out because the limit was
      reached, and is no newer than the last one shown. */
  lemma NewestFirstProperties(s: seq<Donation>, limit: int)
    ensures var w := NewestFirst(s, limit);
      && (forall i | 0 <= i < |w| :: w[i] in s)
      && (forall i, j | 0 <= i < j < |w| :: w[i].date >= w[j].date)
      && |w| == (if limit == 0 then |s| else Min(Abs(limit), |s|))
      && (forall x | x in s && x !in w :: limit != 0 && |w| == Abs(limit) && w[|w| - 1].date >= x.date)
  {
    NewestFirstDrawn(s, limit);
    NewestFirstOrdered(s, limit);
    var w := NewestFirst(s, limit);
    forall x | x in s && x !in w ensures limit != 0 && |w| == Abs(limit) && w[|w| - 1].date >= x.date {
      NewestFirstLeftOut(s, limit, x);
    }
  }

  lemma NewestFirstDrawn(s: seq<Donation>, limit: int)
    ensures var w := NewestFirst(s, limit);
      forall i | 0 <= i < |w| :: w[i] in s
  {
    var n := Abs(limit);
    var w := NewestFirst(s, limit);
    assert w == TopByKey(s, ByDate, n);
    TopByKeyProperties(s, ByDate, n);
    forall i | 0 <= i < |w| ensures w[i] in s {
      assert w[i] in multiset(w);
    }
  }

  lemma NewestFirstOrdered(s: seq<Donation>, limit: int)
    ensures var w := NewestFirst(s, limit);
      forall i, j | 0 <= i < j < |w| :: w[i].date >= w[j].date
  {
    var n := Abs(limit);
    var w := NewestFirst(s, limit);
    assert w == TopByKey(s, ByDate, n);
    TopByKeyProperties(s, ByDate, n);
    forall i, j | 0 <= i < j < |w| ensures w[i].date >= w[j].date {
      assert AtLeast(ByDate(w[i]), ByDate(w[j]));
    }
  }

  /** A donation the window leaves out: the limit was reached, and the last
      donation shown is at least as new. */
  lemma NewestFirstLeftOut(s: seq<Donation>, limit: int, x: Donation)
    requires x in s && x !in NewestFirst(s, limit)
    ensures var w := NewestFirst(s, limit);
      limit != 0 && |w| == Abs(limit) && w[|w| - 1].date >= x.date
  {
    var w := NewestFirst(s, limit);
    assert w == TopByKey(s, ByDate, Abs(limit));
    TopByKeyLeftOut(s, ByDate, Abs(limit), x);
  }

  /** What `getByCampaign` selects: name, amount, message and date. */
  datatype CampaignDonation = CampaignDonation(name: string, amount: int, message: Option<string>, date: int)

  function ToCampaignDonation(d: Donation): CampaignDonation
  {
    CampaignDonation(d.name, d.amount, d.message, d.date)
  }

  function MapCampaignDonation(s: seq<Donation>): (r: seq<CampaignDonation>)
    ensures |r| == |s|
    ensures forall i | 0 <= i < |s| :: r[i] == ToCampaignDonation(s[i])
  {
    seq(|s|, i requires 0 <= i < |s| => ToCampaignDonation(s[i]))
  }

  /** Every donation of a window appears, projected, in its mapping. */
  lemma MapCampaignShows(w: seq<Donation>)
    ensures forall x | x in w :: ToCampaignDonation(x) in MapCampaignDonation(w)
  {
    var r := MapCampaignDonation(w);
    forall x | x in w ensures ToCampaignDonation(x) in r {
      var k :| 0 <= k < |w| && w[k] == x;
      assert r[k] == ToCampaignDonation(x);
    }
  }

  predicate ShownFor(campaignId: nat, d: Donation)
  {
    d.campaignId == campaignId && IsPublicCompleted(d)
  }

  /** The donations `getByCampaign` draws from: the campaign's completed
      public ones. */
  function CampaignPublic(ds: seq<Donation>, campaignId: nat): (r: seq<Donation>)
    ensures forall d | d in r :: d in ds && ShownFor(campaignId, d)
  {
    Filter(ds, d => ShownFor(campaignId, d))
  }

  /** `getByCampaign(campaignId, limit = 10)`: the campaign's completed
      public donations, newest first, at most `limit` of them. */
  function ByCampaign(ds: seq<Donation>, campaignId: nat, limit: Option<int>): (r: seq<CampaignDonation>)
    ensures |r| == |NewestFirst(CampaignPublic(ds, campaignId), IfMissing(limit, 10))|
  {
    MapCampaignDonation(NewestFirst(CampaignPublic(ds, campaignId), IfMissing(limit, 10)))
  }

  /** Every entry of `getByCampaign` is a completed public donation to that
      campaign, the entries are newest first, and there are exactly
      min(limit, #such donations) of them (limit 10 when omitted); a
      completed public donation to the campaign that is not shown was left
      out because the limit was reached, and is no newer than the last
      entry. The entry type has no e-mail or phone. */
  lemma ByCampaignProperties(ds: seq<Donation>, campaignId: nat, limit: Option<int>)
    ensures var r := ByCampaign(ds, campaignId, limit);
      var mine := CampaignPublic(ds, campaignId);
      var n := IfMissing(limit, 10);
      && (forall i | 0 <= i < |r| :: r[i] in MapCampaignDonation(mine))
      && (forall i, j | 0 <= i < j < |r| :: r[i].date >= r[j].date)
      && |r| == (if n == 0 then |mine| else Min(Abs(n), |mine|))
      && (forall d | d in ds && ShownFor(campaignId, d) && ToCampaignDonation(d) !in r ::
            n != 0 && |r| == Abs(n) && r[|r| - 1].date >= d.date)
  {
    ByCampaignDrawn(ds, campaignId, limit);
    var mine := CampaignPublic(ds, campaignId);
    NewestFirstOrdered(mine, IfMissing(limit, 10));
    var r := ByCampaign(ds, campaignId, limit);
    forall d | d in ds && ShownFor(campaignId, d) && ToCampaignDonation(d) !in r
      ensures IfMissing(limit, 10) != 0 && |r| == Abs(IfMissing(limit, 10)) && r[|r| - 1].date >= d.date
    {
      ByCampaignLeftOut(ds, campaignId, limit, d);
    }
  }

  lemma ByCampaignDrawn(ds: seq<Donation>, campaignId: nat, limit: Option<int>)
    ensures var r := ByCampaign(ds, campaignId, limit);
      forall i | 0 <= i < |r| :: r[i] in MapCampaignDonation(CampaignPublic(ds, campaignId))
  {
    var mine := CampaignPublic(ds, campaignId);
    var w := NewestFirst(mine, IfMissing(limit, 10));
    NewestFirstDrawn(mine, IfMissing(limit, 10));
    var all := MapCampaignDonation(mine);
    forall i | 0 <= i < |w| ensures ToCampaignDonation(w[i]) in all {
      var k :| 0 <= k < |mine| && mine[k] == w[i];
      assert all[k] == ToCampaignDonation(w[i]);
    }
  }

  /** A completed public donation to the campaign that `getByCampaign`
      does not show: the limit was reached, and the last entry is at least
      as new. */
  lemma ByCampaignLeftOut(ds: seq<Donation>, campaignId: nat, limit: Option<int>, d: Donation)
    requires d in ds && ShownFor(campaignId, d)
    requires ToCampaignDonation(d) !in ByCampaign(ds, campaignId, limit)
    ensures var r := ByCampaign(ds, campaignId, limit); var n := IfMissing(limit, 10);
      n != 0 && |r| == Abs(n) && r[|r| - 1].date >= d.date
  {
    var mine := CampaignPublic(ds, campaignId);
    var n := IfMissing(limit, 10);
    var w := NewestFirst(mine, n);
    FilterKeeps(ds, d => ShownFor(campaignId, d), d);
    MapCampaignShows(w);
    NewestFirstLeftOut(mine, n, d);
    assert MapCampaignDonation(w)[|w| - 1] == ToCampaignDonation(w[|w| - 1]);
  }

  /** What `getRecentDonations` selects: name, amount, campaign, date and
      message. */
  datatype RecentDonation = RecentDonation(name: string, amount: int, campaignId: nat, date: int, message: Option<string>)

  function ToRecentDonation(d: Donation): RecentDonation
  {
    RecentDonation(d.name, d.amount, d.campaignId, d.date, d.message)
  }

  function MapRecentDonation(s: seq<Donation>): (r: seq<RecentDonation>)
    ensures |r| == |s|
    ensures forall i | 0 <= i < |s| :: r[i] == ToRecentDonation(s[i])
  {
    seq(|s|, i requires 0 <= i < |s| => ToRecentDonation(s[i]))
  }

  /** Every donation of a window appears, projected, in its mapping. */
  lemma MapRecentShows(w: seq<Donation>)
    ensures forall x | x in w :: ToRecentDonation(x) in MapRecentDonation(w)
  {
    var r := MapRecentDonation(w);
    forall x | x in w ensures ToRecentDonation(x) in r {
      var k :| 0 <= k < |w| && w[k] == x;
      assert r[k] == ToRecentDonation(x);
    }
  }

  /** The donations `getRecentDonations` draws from. */
  function PublicCompleted(ds: seq<Donation>): (r: seq<Donation>)
    ensures forall d | d in r :: d in ds && IsPublicCompleted(d)
  {
    Filter(ds, IsPublicCompleted)
  }

  /** `getRecentDonations(limit = 20)`: completed public donations of every
      campaign, newest first, at most `limit` of them. */
  function Recent(ds: seq<Donation>, limit: Option<int>): (r: seq<RecentDonation>)
    ensures |r| == |NewestFirst(PublicCompleted(ds), IfMissing(limit, 20))|
  {
    MapRecentDonation(NewestFirst(PublicCompleted(ds), IfMissing(limit, 20)))
  }

  /** Every entry of `getRecentDonations` is a completed public donation,
      newest first, and there are exactly min(limit, #such donations) of
      them (limit 20 when omitted); a completed public donation that is not
      shown was left out because the limit was reached, and is no newer
      than the last entry. */
  lemma RecentProperties(ds: seq<Donation>, limit: Option<int>)
    ensures var r := Recent(ds, limit);
      var pub := PublicCompleted(ds);
      var n := IfMissing(limit, 20);
      && (forall i | 0 <= i < |r| :: r[i] in MapRecentDonation(pub))
      && (forall i, j | 0 <= i < j < |r| :: r[i].date >= r[j].date)
      && |r| == (if n == 0 then |pub| else Min(Abs(n), |pub|))
      && (forall d | d in ds && IsPublicCompleted(d) && ToRecentDonation(d) !in r ::
            n != 0 && |r| == Abs(n) && r[|r| - 1].date >= d.date)
  {
    RecentDrawn(ds, limit);
    var pub := PublicCompleted(ds);
    NewestFirstOrdered(pub, IfMissing(limit, 20));
    var r := Recent(ds, limit);
    forall d | d in ds && IsPublicCompleted(d) && ToRecentDonation(d) !in r
      ensures IfMissing(limit, 20) != 0 && |r| == Abs(IfMissing(limit, 20)) && r[|r| - 1].date >= d.date
    {
      RecentLeftOut(ds, limit, d);
    }
  }

  lemma RecentDrawn(ds: seq<Donation>, limit: Option<int>)
    ensures var r := Recent(ds, limit);
      forall i | 0 <= i < |r| :: r[i] in MapRecentDonation(PublicCompleted(ds))
  {
    var pub := PublicCompleted(ds);
    var w := NewestFirst(pub, IfMissing(limit, 20));
    NewestFirstDrawn(pub, IfMissing(limit, 20));
    var all := MapRecentDonation(pub);
    forall i | 0 <= i < |w| ensures ToRecentDonation(w[i]) in all {
      var k :| 0 <= k < |pub| && pub[k] == w[i];
      assert all[k] == ToRecentDonation(w[i]);
    }
  }

  /** A completed public donation that `getRecentDonations` does not show:
      the limit was reached, and the last entry is at least as new. */
  lemma RecentLeftOut(ds: seq<Donation>, limit: Option<int>, d: Donation)
    requires d in ds && IsPublicCompleted(d)
    requires ToRecentDonation(d) !in Recent(ds, limit)
    ensures var r := Recent(ds, limit); var n := IfMissing(limit, 20);
      n != 0 && |r| == Abs(n) && r[|r| - 1].date >= d.date
  {
    var pub := PublicCompleted(ds);
    var n := IfMissing(limit, 20);
    var w := NewestFirst(pub, n);
    FilterKeeps(ds, IsPublicCompleted, d);
    MapRecentShows(w);
    NewestFirstLeftOut(pub, n, d);
    assert MapRecentDonation(w)[|w| - 1] == ToRecentDonation(w[|w| - 1]);
  }

  /** One row of `getTopDonors`: a donor e-mail, the name on its first
      donation, the sum and the number of its donations. */
  datatype DonorTotal = DonorTotal(email: string, name: string, totalDonated: int, donationCount: nat)

  function AmountFrom(s: seq<Donation>, e: string): int
  {
    Sum(s, (d: Donation) => if d.email == e then d.amount else 0)
  }

  function CountFrom(s: seq<Donation>, e: string): nat
  {
    Count(s, (d: Donation) => d.email == e)
  }

  /** The name on the first donation from e (`$first: '$name'`). */
  function FirstName(s: seq<Donation>, e: string): string
    decreases |s|
  {
    if s == [] then ""
    else if e in Emails(s[..|s| - 1]) then FirstName(s[..|s| - 1], e)
    else s[|s| - 1].name
  }

  /** The `$group` row of e-mail e. */
  function GroupRow(s: seq<Donation>, e: string): DonorTotal
  {
    DonorTotal(e, FirstName(s, e), AmountFrom(s, e), CountFrom(s, e))
  }

  predicate DistinctEmails(gs: seq<DonorTotal>)
  {
    forall a, b | 0 <= a < b < |gs| :: gs[a].email != gs[b].email
  }

  function Credit(g: DonorTotal, d: Donation): DonorTotal
  {
    g.(totalDonated := g.totalDonated + d.amount, donationCount := g.donationCount + 1)
  }

  /** Whether some row of gs belongs to e-mail e. */
  predicate HasRow(gs: seq<DonorTotal>, e: string)
  {
    exists i | 0 <= i < |gs| :: gs[i].email == e
  }

  /** One donation added to the accumulating groups: its e-mail's row grows,
      or a new row is opened at the end. */
  function AddToGroups(gs: seq<DonorTotal>, d: Donation): (r: seq<DonorTotal>)
    requires DistinctEmails(gs)
    ensures DistinctEmails(r)
    ensures |r| == (if HasRow(gs, d.email) then |gs| else |gs| + 1)
    ensures forall i | 0 <= i < |gs| :: r[i] == (if gs[i].email == d.email then Credit(gs[i], d) else gs[i])
    ensures !HasRow(gs, d.email) ==> r[|gs|] == DonorTotal(d.email, d.name, d.amount, 1)
  {
    if HasRow(gs, d.email) then
      seq(|gs|, i requires 0 <= i < |gs| => if gs[i].email == d.email then Credit(gs[i], d) else gs[i])
    else
      gs + [DonorTotal(d.email, d.name, d.amount, 1)]
  }

  /** The `$group: { _id: '$email', ... }` stage, rows in order of each
      e-mail's first donation. */
  function GroupByEmail(s: seq<Donation>): (gs: seq<DonorTotal>)
    ensures DistinctEmails(gs)
    decreases |s|
  {
    if s == [] then [] else AddToGroups(GroupByEmail(s[..|s| - 1]), s[|s| - 1])
  }

  /** No donation from e: no count, no amount. */
  lemma {:induction false} AbsentEmail(s: seq<Donation>, e: string)
    ensures e !in Emails(s) <==> CountFrom(s, e) == 0
    ensures e !in Emails(s) ==> AmountFrom(s, e) == 0
    decreases |s|
  {
    if s != [] {
      var prefix := s[..|s| - 1];
      assert s == prefix + [s[|s| - 1]];
      AbsentEmail(prefix, e);
    }
  }

  /** How one more donation changes the group row of an e-mail. */
  lemma GroupRowExtend(prefix: seq<Donation>, d: Donation, e: string)
    ensures var s := prefix + [d];
      && (e in Emails(prefix) && e != d.email ==> GroupRow(s, e) == GroupRow(prefix, e))
      && (e in Emails(prefix) && e == d.email ==> GroupRow(s, e) == Credit(GroupRow(prefix, e), d))
      && (e !in Emails(prefix) && e == d.email ==> GroupRow(s, e) == DonorTotal(e, d.name, d.amount, 1))
  {
    var s := prefix + [d];
    assert s[..|s| - 1] == prefix;
    if e !in Emails(prefix) {
      AbsentEmail(prefix, e);
    }
  }

  /** Every row of the grouping is the exact group of its e-mail: the name
      of that e-mail's first donation, the sum of its amounts and the number
      of its donations. */
  lemma {:induction false} GroupRowsExact(s: seq<Donation>)
    ensures var gs := GroupByEmail(s);
      forall i | 0 <= i < |gs| :: gs[i].email in Emails(s) && gs[i] == GroupRow(s, gs[i].email)
    decreases |s|
  {
    if s != [] {
      var prefix := s[..|s| - 1];
      var d := s[|s| - 1];
      assert s == prefix + [d];
      GroupRowsExact(prefix);
      GroupsCoverEmails(prefix);
      var gs0 := GroupByEmail(prefix);
      var gs := AddToGroups(gs0, d);
      assert GroupByEmail(s) == gs;
      assert Emails(s) == Emails(prefix) + {d.email};
      forall i | 0 <= i < |gs| ensures gs[i].email in Emails(s) && gs[i] == GroupRow(s, gs[i].email) {
        var e := gs[i].email;
        GroupRowExtend(prefix, d, e);
        if i < |gs0| {
          assert e == gs0[i].email && e in Emails(prefix);
          assert gs0[i] == GroupRow(prefix, e);
          if e == d.email {
            assert gs[i] == Credit(gs0[i], d);
          } else {
            assert gs[i] == gs0[i];
          }
        } else {
          assert i == |gs0| && |gs| == |gs0| + 1;
          assert gs[i] == DonorTotal(d.email, d.name, d.amount, 1);
          assert e !in Emails(prefix);
        }
      }
    }
  }

  /** After one more donation, the groups still hold every e-mail they held,
      and the donation's own. */
  lemma AddToGroupsCovers(gs: seq<DonorTotal>, d: Donation, e: string) returns (i: nat)
    requires DistinctEmails(gs)
    requires e == d.email || exists j | 0 <= j < |gs| :: gs[j].email == e
    ensures i < |AddToGroups(gs, d)| && AddToGroups(gs, d)[i].email == e
  {
    var r := AddToGroups(gs, d);
    if j :| 0 <= j < |gs| && gs[j].email == e {
      i := j;
    } else {
      i := |gs|;
    }
  }

  /** Every donor e-mail has a row in the grouping. */
  lemma {:induction false} GroupsCoverEmails(s: seq<Donation>)
    ensures var gs := GroupByEmail(s);
      forall e | e in Emails(s) :: exists i | 0 <= i < |gs| :: gs[i].email == e
    decreases |s|
  {
    if s != [] {
      var prefix := s[..|s| - 1];
      var d := s[|s| - 1];
      assert s == prefix + [d];
      GroupsCoverEmails(prefix);
      var gs0 := GroupByEmail(prefix);
      var gs := AddToGroups(gs0, d);
      assert GroupByEmail(s) == gs;
      assert Emails(s) == Emails(prefix) + {d.email};
      forall e | e in Emails(s) ensures exists i | 0 <= i < |gs| :: gs[i].email == e {
        var i := AddToGroupsCovers(gs0, d, e);
      }
    }
  }

  function ByTotal(g: DonorTotal): SortKey { SortKey(g.totalDonated, 0) }

  /** `getTopDonors(limit = 10)`: completed public donations grouped by
      e-mail, largest total first, at most `limit` rows. MongoDB rejects a
      `$limit` that is not positive, and the promise rejects (`None`). */
  function TopDonors(ds: seq<Donation>, limit: Option<int>): Option<seq<DonorTotal>>
  {
    var n := IfMissing(limit, 10);
    if n <= 0 then None
    else Some(TopByKey(GroupByEmail(PublicCompleted(ds)), ByTotal, n))
  }

  /** A sequence with distinct e-mails holds each element at most once. */
  lemma {:induction false} DistinctEmailsOnce(gs: seq<DonorTotal>, x: DonorTotal)
    requires DistinctEmails(gs)
    ensures multiset(gs)[x] <= 1
    decreases |gs|
  {
    if gs != [] {
      var prefix := gs[..|gs| - 1];
      assert gs == prefix + [gs[|gs| - 1]];
      DistinctEmailsOnce(prefix, x);
    }
  }

  /** Two equal elements at different places occur twice. */
  lemma TwiceInMultiset(r: seq<DonorTotal>, i: int, j: int)
    requires 0 <= i < j < |r| && r[i] == r[j]
    ensures multiset(r)[r[i]] >= 2
  {
    assert r == r[..j] + r[j..];
    assert r[..j][i] == r[i];
    assert r[j..][0] == r[i];
  }

  /** The top rows are rows of the grouping, never more than n. */
  lemma TopDrawn(gs: seq<DonorTotal>, n: nat)
    ensures var r := TopByKey(gs, ByTotal, n);
      && (n > 0 ==> |r| <= n)
      && (forall i | 0 <= i < |r| :: r[i] in gs)
  {
    TopByKeyProperties(gs, ByTotal, n);
    var r := TopByKey(gs, ByTotal, n);
    forall i | 0 <= i < |r| ensures r[i] in gs {
      assert r[i] in multiset(r);
    }
  }

  /** The rows of the top-donor list: groups of their own e-mail, taken from
      the grouping and never more than n. */
  lemma TopRowsExact(pub: seq<Donation>, n: nat)
    requires n > 0
    ensures var r := TopByKey(GroupByEmail(pub), ByTotal, n);
      && |r| <= n
      && (forall i | 0 <= i < |r| :: r[i] == GroupRow(pub, r[i].email) && r[i].email in Emails(pub))
  {
    var gs := GroupByEmail(pub);
    GroupRowsExact(pub);
    TopDrawn(gs, n);
    var r := TopByKey(gs, ByTotal, n);
    forall i | 0 <= i < |r| ensures r[i] == GroupRow(pub, r[i].email) && r[i].email in Emails(pub) {
      var k :| 0 <= k < |gs| && gs[k] == r[i];
    }
  }

  lemma TopOrdered(pub: seq<Donation>, n: nat)
    ensures var r := TopByKey(GroupByEmail(pub), ByTotal, n);
      forall i, j | 0 <= i < j < |r| :: r[i].totalDonated >= r[j].totalDonated
  {
    var gs := GroupByEmail(pub);
    TopByKeyProperties(gs, ByTotal, n);
    var r := TopByKey(gs, ByTotal, n);
    forall i, j | 0 <= i < j < |r| ensures r[i].totalDonated >= r[j].totalDonated {
      assert AtLeast(ByTotal(r[i]), ByTotal(r[j]));
    }
  }

  lemma TopDistinct(pub: seq<Donation>, n: nat)
    requires n > 0
    ensures var r := TopByKey(GroupByEmail(pub), ByTotal, n);
      forall i, j | 0 <= i < j < |r| :: r[i].email != r[j].email
  {
    var gs := GroupByEmail(pub);
    TopRowsExact(pub, n);
    TopByKeyProperties(gs, ByTotal, n);
    var r := TopByKey(gs, ByTotal, n);
    forall i, j | 0 <= i < j < |r| ensures r[i].email != r[j].email {
      if r[i].email == r[j].email {
        assert r[i] == r[j];
        TwiceInMultiset(r, i, j);
        DistinctEmailsOnce(gs, r[i]);
      }
    }
  }

  /** The grouping has exactly one row per distinct e-mail. */
  lemma {:induction false} GroupCount(s: seq<Donation>)
    ensures |GroupByEmail(s)| == |Emails(s)|
    decreases |s|
  {
    if s != [] {
      var prefix := s[..|s| - 1];
      var d := s[|s| - 1];
      GroupCount(prefix);
      GroupRowsExact(prefix);
      GroupsCoverEmails(prefix);
      var gs0 := GroupByEmail(prefix);
      assert HasRow(gs0, d.email) <==> d.email in Emails(prefix);
      assert Emails(s) == Emails(prefix) + {d.email};
    }
  }

  /** Each row of a sequence is a row of its own e-mail. */
  lemma RowsHaveRows(r: seq<DonorTotal>)
    ensures forall g | g in r :: HasRow(r, g.email)
  {
    forall g | g in r ensures HasRow(r, g.email) {
      var i :| 0 <= i < |r| && r[i] == g;
    }
  }

  /** A donor e-mail without a top row: the n rows are all taken, and the
      last of them has a total at least as large. */
  lemma TopLeftOut(pub: seq<Donation>, n: nat, e: string)
    requires e in Emails(pub)
    requires !HasRow(TopByKey(GroupByEmail(pub), ByTotal, n), e)
    ensures var r := TopByKey(GroupByEmail(pub), ByTotal, n);
      n > 0 && |r| == n && AmountFrom(pub, e) <= r[n - 1].totalDonated
  {
    var gs := GroupByEmail(pub);
    var r := TopByKey(gs, ByTotal, n);
    var k := RowOf(pub, e);
    RowsHaveRows(r);
    TopByKeyLeftOut(gs, ByTotal, n, gs[k]);
  }

  /** The row of a donor e-mail in the grouping. */
  lemma RowOf(pub: seq<Donation>, e: string) returns (k: nat)
    requires e in Emails(pub)
    ensures k < |GroupByEmail(pub)| && GroupByEmail(pub)[k] == GroupRow(pub, e)
  {
    var gs := GroupByEmail(pub);
    GroupsCoverEmails(pub);
    k :| k < |gs| && gs[k].email == e;
    GroupRowsExact(pub);
  }

  /** Each row of `getTopDonors` is the exact group of its e-mail over the
      completed public donations (sum of amounts, number of donations, first
      name); rows are ordered by total, largest first, no two for the same
      e-mail; and there are exactly min(limit, #donor e-mails) of them
      (limit 10 when omitted). */
  lemma TopDonorsProperties(ds: seq<Donation>, limit: Option<int>)
    requires limit.None? || limit.value > 0
    ensures TopDonors(ds, limit).Some?
    ensures var r := TopDonors(ds, limit).value; |r| == Min(IfMissing(limit, 10), |Emails(PublicCompleted(ds))|)
    ensures var pub := PublicCompleted(ds); var r := TopDonors(ds, limit).value;
      forall i | 0 <= i < |r| :: r[i] == GroupRow(pub, r[i].email) && r[i].email in Emails(pub)
    ensures var r := TopDonors(ds, limit).value;
      forall i, j | 0 <= i < j < |r| :: r[i].totalDonated >= r[j].totalDonated && r[i].email != r[j].email
  {
    var pub := PublicCompleted(ds);
    var n := IfMissing(limit, 10);
    assert TopDonors(ds, limit) == Some(TopByKey(GroupByEmail(pub), ByTotal, n));
    TopByKeyProperties(GroupByEmail(pub), ByTotal, n);
    GroupCount(pub);
    TopRowsExact(pub, n);
    TopOrdered(pub, n);
    TopDistinct(pub, n);
  }

  /** A donor of completed public donations without a row in
      `getTopDonors` was left out because all `limit` rows are taken, and
      gave no more in total than the last row shown. */
  lemma TopDonorsComplete(ds: seq<Donation>, limit: Option<int>)
    requires limit.None? || limit.value > 0
    ensures TopDonors(ds, limit).Some?
    ensures var pub := PublicCompleted(ds); var r := TopDonors(ds, limit).value;
      forall e | e in Emails(pub) && !HasRow(r, e) ::
        |r| == IfMissing(limit, 10) && AmountFrom(pub, e) <= r[|r| - 1].totalDonated
  {
    var pub := PublicCompleted(ds);
    var n := IfMissing(limit, 10);
    var r := TopByKey(GroupByEmail(pub), ByTotal, n);
    assert TopDonors(ds, limit) == Some(r);
    forall e | e in Emails(pub) && !HasRow(r, e) ensures |r| == n && AmountFrom(pub, e) <= r[|r| - 1].totalDonated {
      TopLeftOut(pub, n, e);
    }
  }
}
