/** The Campaign document: its schema constraints, the two pre-save hooks
    (end date on creation, automatic completion or cancellation), the
    virtuals `percentageCompleted`, `daysRemaining` and `isExpired`, and the
    `getStatistics` fold. Time is a number of milliseconds. */
module CampaignModel {
  import opened Basics
  import opened Text

  const DAY_MS: int := 86400000

  datatype Category = Schools | Children | Health | Other

  function CategoryName(c: Category): string
  {
    match c
    case Schools => "schools"
    case Children => "children"
    case Health => "health"
    case Other => "other"
  }

  /** The `lowercase: true` setter followed by the enum validator: a
      category is accepted when, lowercased, it is one of the four names. */
  function ParseCategory(s: string): Option<Category>
  {
    var l := Lower(s);
    if l == "schools" then Some(Schools)
    else if l == "children" then Some(Children)
    else if l == "health" then Some(Health)
    else if l == "other" then Some(Other)
    else None
  }

  lemma ParseCategoryExact(s: string, c: Category)
    ensures ParseCategory(s) == Some(c) <==> Lower(s) == CategoryName(c)
  {
  }

  datatype Status = Pending | Active | Completed | Cancelled | Rejected

  function StatusName(s: Status): string
  {
    match s
    case Pending => "pending"
    case Active => "active"
    case Completed => "completed"
    case Cancelled => "cancelled"
    case Rejected => "rejected"
  }

  /** The status enum validator (the path has no case setter). */
  function ParseStatus(s: string): Option<Status>
  {
    if s == "pending" then Some(Pending)
    else if s == "active" then Some(Active)
    else if s == "completed" then Some(Completed)
    else if s == "cancelled" then Some(Cancelled)
    else if s == "rejected" then Some(Rejected)
    else None
  }

  lemma ParseStatusExact(s: string, st: Status)
    ensures ParseStatus(s) == Some(st) <==> s == StatusName(st)
  {
  }

  /** A campaign document. String paths with `trim`/`lowercase` hold the
      value after those setters ran; `endDate` is absent on a new document
      until the end-date hook sets it; `image` keeps '' for "none". */
  datatype Campaign = Campaign(
    id: nat,
    title: string,
    description: string,
    category: Category,
    goal: int,
    collected: int,
    startDate: int,
    endDate: Option<int>,
    duration: int,
    status: Status,
    image: string,
    documents: seq<string>,
    creatorName: string,
    creatorEmail: string,
    donorCount: int,
    isUrgent: bool,
    isFeatured: bool,
    rejectionReason: Option<string>,
    approvedBy: Option<nat>,
    approvedAt: Option<int>,
    createdAt: int)

  /** The schema validators: required non-empty strings with their maximum
      lengths, `goal >= 100`, `collected >= 0`, a present end date,
      `duration >= 1` and an e-mail shaped creator address. */
  predicate SchemaValid(c: Campaign)
  {
    && 0 < |c.title| <= 200
    && 0 < |c.description| <= 5000
    && c.goal >= 100
    && c.collected >= 0
    && c.endDate.Some?
    && c.duration >= 1
    && 0 < |c.creatorName|
    && 0 < |c.creatorEmail| && IsEmailShaped(c.creatorEmail)
  }

  /** The `isExpired` virtual: the clock is past the end date. A missing
      end date is an invalid Date, and every comparison with it is false. */
  predicate IsExpired(c: Campaign, now: int)
  {
    c.endDate.Some? && now > c.endDate.value
  }

  /** `Math.ceil(a / b)` for a positive b. */
  function CeilDivPos(a: int, b: int): (r: int)
    requires b > 0
    ensures (r - 1) * b < a <= r * b
  {
    -((-a) / b)
  }

  /** The `daysRemaining` virtual: whole days left, rounded up, never below
      zero; `None` where JavaScript computes NaN (no end date). */
  function DaysRemaining(c: Campaign, now: int): (r: Option<int>)
    ensures r.Some? <==> c.endDate.Some?
    ensures r.Some? ==> r.value >= 0
  {
    if c.endDate.None? then None else Some(Max(0, CeilDivPos(c.endDate.value - now, DAY_MS)))
  }

  /** Days remaining and expiry agree: zero days remain exactly when the end
      date has been reached, some remain only while the campaign has not
      expired, and a positive count is the least number of whole days that
      reach the end date. */
  lemma DaysRemainingMeaning(c: Campaign, now: int)
    requires c.endDate.Some?
    ensures var d := DaysRemaining(c, now).value;
      && (d == 0 <==> now >= c.endDate.value)
      && (d > 0 ==> !IsExpired(c, now))
      && (d > 0 ==> (d - 1) * DAY_MS < c.endDate.value - now <= d * DAY_MS)
  {
  }

  /** `Math.round(collected / goal * 100)`: the whole percentage nearest to
      the exact one, halves rounded up. */
  function RoundedPercent(collected: int, goal: int): (p: int)
    requires goal > 0
    ensures 2 * goal * p <= 200 * collected + goal < 2 * goal * (p + 1)
  {
    (200 * collected + goal) / (2 * goal)
  }

  /** The `percentageCompleted` virtual (and the same expression on the
      tracking page): the rounded percentage, capped at 100. */
  function PercentageCompleted(collected: int, goal: int): (p: int)
    requires goal > 0
    ensures collected >= 0 ==> 0 <= p <= 100
    ensures collected >= goal ==> p == 100
  {
    RoundedPercentBounds(collected, goal);
    Min(RoundedPercent(collected, goal), 100)
  }

  lemma RoundedPercentBounds(collected: int, goal: int)
    requires goal > 0
    ensures collected >= 0 ==> RoundedPercent(collected, goal) >= 0
    ensures collected >= goal ==> RoundedPercent(collected, goal) >= 100
  {
    var r := RoundedPercent(collected, goal);
    if collected >= 0 && r < 0 {
      MulMonotone(r + 1, 0, 2 * goal);
    }
    if collected >= goal && r < 100 {
      MulMonotone(r + 1, 100, 2 * goal);
      MulMonotone(goal, collected, 200);
    }
  }

  /** More money never shows a smaller percentage. */
  lemma PercentageMonotone(c1: int, c2: int, goal: int)
    requires goal > 0 && c1 <= c2
    ensures PercentageCompleted(c1, goal) <= PercentageCompleted(c2, goal)
  {
    var p1 := RoundedPercent(c1, goal);
    var p2 := RoundedPercent(c2, goal);
    if p1 > p2 {
      MulMonotone(p2 + 1, p1, 2 * goal);
      MulMonotone(c1, c2, 200);
    }
  }

  /** The first pre-save hook: a new document with a non-zero duration gets
      its end date `duration` days from now; a document that is not new
      keeps its end date. */
  function EndDateOnSave(c: Campaign, isNew: bool, now: int): Campaign
  {
    if isNew && c.duration != 0 then c.(endDate := Some(now + c.duration * DAY_MS)) else c
  }

  /** The second pre-save hook: an active campaign that reached its goal is
      completed; one that is still active and expired is cancelled. */
  function StatusOnSave(c: Campaign, now: int): Campaign
  {
    var c1 := if c.collected >= c.goal && c.status == Active then c.(status := Completed) else c;
    if IsExpired(c1, now) && c1.status == Active then c1.(status := Cancelled) else c1
  }

  /** The status hook changes nothing but the status; it leaves a pending,
      completed, cancelled or rejected campaign alone; an active funded
      campaign becomes completed even when it has also expired (the funded
      test runs first); an active unfunded expired one becomes cancelled;
      any other active campaign stays active. */
  lemma StatusHookRules(c: Campaign, now: int)
    ensures var r := StatusOnSave(c, now);
      && r == c.(status := r.status)
      && (c.status != Active ==> r == c)
      && (c.status == Active && c.collected >= c.goal ==> r.status == Completed)
      && (c.status == Active && c.collected < c.goal && IsExpired(c, now) ==> r.status == Cancelled)
      && (c.status == Active && c.collected < c.goal && !IsExpired(c, now) ==> r.status == Active)
  {
  }

  /** After the status hook, a campaign that is still active is neither
      funded nor expired, and running the hook again changes nothing. */
  lemma StatusHookSettles(c: Campaign, now: int)
    ensures var r := StatusOnSave(c, now);
      && (r.status == Active ==> r.collected < r.goal && !IsExpired(r, now))
      && StatusOnSave(r, now) == r
  {
  }

  /** One completed donation credited to a campaign: the post-save hook's
      `collected += amount; donorCount += 1`, also performed by the donation
      controller. */
  function ApplyDonation(c: Campaign, amount: int): Campaign
  {
    c.(collected := c.collected + amount, donorCount := c.donorCount + 1)
  }

  /** The document as `save()` writes it, or `None` when a validator fails:
      both hooks run first and the validators check their result. This is
      the order the end-date hook needs (see the findings in README.md). */
  function SaveOutcome(c: Campaign, isNew: bool, now: int): Option<Campaign>
  {
    var r := StatusOnSave(EndDateOnSave(c, isNew, now), now);
    if SchemaValid(r) then Some(r) else None
  }

  /** `save()` as Mongoose orders it: the built-in validation step is the
      first pre-save hook, so the validators see the document before either
      of the schema's own hooks ran. */
  function SaveOutcomeAsWritten(c: Campaign, isNew: bool, now: int): Option<Campaign>
  {
    if SchemaValid(c) then Some(StatusOnSave(EndDateOnSave(c, isNew, now), now)) else None
  }

  /** As written, no new campaign can be saved: it has no end date when the
      validators run, and `endDate` is required. */
  lemma AsWrittenRejectsNewCampaigns(c: Campaign, now: int)
    requires c.endDate.None?
    ensures SaveOutcomeAsWritten(c, true, now).None?
  {
  }

  /** A fresh active campaign with nothing collected is saved exactly when,
      with its end date set, it passes the validators; it is then stored as
      it is, still active: its goal is at least 100, so it is not funded,
      and it ends at least a day after now, so it has not expired. */
  lemma NewCampaignSave(c: Campaign, now: int)
    requires c.duration != 0 && c.status == Active && c.collected == 0
    ensures var e := c.(endDate := Some(now + c.duration * DAY_MS));
      && (SaveOutcome(c, true, now).Some? <==> SchemaValid(e))
      && (SaveOutcome(c, true, now).Some? ==> SaveOutcome(c, true, now).value == e)
  {
    var e := c.(endDate := Some(now + c.duration * DAY_MS));
    assert EndDateOnSave(c, true, now) == e;
    StatusHookRules(e, now);
    if SchemaValid(e) {
      assert !IsExpired(e, now);
    }
  }

  /** With the hooks before the validators, a new campaign whose fields pass
      the validators is saved with its end date `duration` days after now,
      and its status settled by the status hook. A later save never moves
      the end date. */
  lemma SaveSetsEndDateOnce(c: Campaign, now: int, later: int)
    requires SchemaValid(c.(endDate := Some(0)))
    ensures SaveOutcome(c, true, now).Some?
    ensures SaveOutcome(c, true, now).value.endDate == Some(now + c.duration * DAY_MS)
    ensures SaveOutcome(c, true, now).value == StatusOnSave(c.(endDate := Some(now + c.duration * DAY_MS)), now)
    ensures SaveOutcome(c, false, later).Some? ==> SaveOutcome(c, false, later).value.endDate == c.endDate
  {
    assert c.duration != 0;
    var r := StatusOnSave(EndDateOnSave(c, true, now), now);
    assert r == EndDateOnSave(c, true, now).(status := r.status);
  }

  /** A stored campaign re-saved with its paths unchanged still passes the
      validators, and only its status can move. */
  lemma ResaveKeepsValid(c: Campaign, now: int)
    requires SchemaValid(c)
    ensures SaveOutcome(c, false, now) == Some(StatusOnSave(c, now))
  {
    var r := StatusOnSave(c, now);
    assert r == c.(status := r.status);
  }

  /** For a document that is not new the two orders of `save()` agree:
      the end-date hook does nothing, and the status hook never turns a
      document the validators accept into one they refuse, or the reverse.
      Every re-save in the controllers is therefore faithful to Mongoose's
      order. */
  lemma ResaveEitherOrder(c: Campaign, now: int)
    ensures SaveOutcome(c, false, now) == SaveOutcomeAsWritten(c, false, now)
  {
  }

  /** A campaign document as the hooks see it: the record of its paths and
      Mongoose's `isNew` flag. */
  class CampaignDoc {
    var rec: Campaign
    var isNew: bool

    constructor (rec: Campaign, isNew: bool)
      ensures this.rec == rec && this.isNew == isNew
    {
      this.rec := rec;
      this.isNew := isNew;
    }

    /** The first pre-save hook, in place. */
    method EndDateHook(now: int)
      modifies this
      ensures rec == EndDateOnSave(old(rec), old(isNew), now) && isNew == old(isNew)
    {
      if isNew && rec.duration != 0 {
        rec := rec.(endDate := Some(now + rec.duration * DAY_MS));
      }
    }

    /** The second pre-save hook, in place. */
    method StatusHook(now: int)
      modifies this
      ensures rec == StatusOnSave(old(rec), now) && isNew == old(isNew)
    {
      if rec.collected >= rec.goal && rec.status == Active {
        rec := rec.(status := Completed);
      }
      if IsExpired(rec, now) && rec.status == Active {
        rec := rec.(status := Cancelled);
      }
    }

    /** `save()`. With `validateFirst` it follows Mongoose's order: the
        validators check the document as it stands and, when they refuse
        it, neither hook runs; otherwise the two hooks run and the result
        is written. Without it the hooks run first and the validators check
        their result, the order the end-date hook needs. On success the
        document is no longer new and holds what was written. */
    method Save(now: int, validateFirst: bool) returns (saved: Option<Campaign>)
      modifies this
      ensures saved == if validateFirst then SaveOutcomeAsWritten(old(rec), old(isNew), now) else SaveOutcome(old(rec), old(isNew), now)
      ensures rec == if validateFirst && !SchemaValid(old(rec)) then old(rec) else StatusOnSave(EndDateOnSave(old(rec), old(isNew), now), now)
      ensures isNew == (old(isNew) && saved.None?)
    {
      if validateFirst && !SchemaValid(rec) {
        return None;
      }
      EndDateHook(now);
      StatusHook(now);
      if validateFirst || SchemaValid(rec) {
        saved := Some(rec);
        isNew := false;
      } else {
        saved := None;
      }
    }
  }

  /** The document `getStatistics` returns. */
  datatype CampaignStatistics = CampaignStatistics(
    totalCampaigns: nat,
    activeCampaigns: nat,
    completedCampaigns: nat,
    totalGoal: int,
    totalCollected: int,
    totalDonors: int)

  const NoStatistics := CampaignStatistics(0, 0, 0, 0, 0, 0)

  function Combine(a: CampaignStatistics, b: CampaignStatistics): CampaignStatistics
  {
    CampaignStatistics(
      a.totalCampaigns + b.totalCampaigns,
      a.activeCampaigns + b.activeCampaigns,
      a.completedCampaigns + b.completedCampaigns,
      a.totalGoal + b.totalGoal,
      a.totalCollected + b.totalCollected,
      a.totalDonors + b.totalDonors)
  }

  lemma CombineZero(x: CampaignStatistics)
    ensures Combine(x, NoStatistics) == x
  {
  }

  lemma CombineAssociative(x: CampaignStatistics, y: CampaignStatistics, z: CampaignStatistics)
    ensures Combine(Combine(x, y), z) == Combine(x, Combine(y, z))
  {
  }

  /** One campaign's contribution to each accumulator of the `$group`. */
  function Tally(c: Campaign): CampaignStatistics
  {
    CampaignStatistics(1, if c.status == Active then 1 else 0, if c.status == Completed then 1 else 0,
      c.goal, c.collected, c.donorCount)
  }

  /** `getStatistics`: one `$group` over every campaign, or all zeros when
      there is none. */
  function Statistics(cs: seq<Campaign>): (st: CampaignStatistics)
    ensures st.totalCampaigns == |cs|
    ensures st.activeCampaigns + st.completedCampaigns <= st.totalCampaigns
    ensures cs == [] ==> st == NoStatistics
    decreases |cs|
  {
    if cs == [] then NoStatistics else Combine(Statistics(cs[..|cs| - 1]), Tally(cs[|cs| - 1]))
  }

  /** Each accumulator of `getStatistics` is the plain count or sum over the
      campaigns. */
  lemma {:induction false} StatisticsAreSums(cs: seq<Campaign>)
    ensures var st := Statistics(cs);
      && st.activeCampaigns == Count(cs, (c: Campaign) => c.status == Active)
      && st.completedCampaigns == Count(cs, (c: Campaign) => c.status == Completed)
      && st.totalGoal == Sum(cs, (c: Campaign) => c.goal)
      && st.totalCollected == Sum(cs, (c: Campaign) => c.collected)
      && st.totalDonors == Sum(cs, (c: Campaign) => c.donorCount)
    decreases |cs|
  {
    if cs != [] {
      StatisticsAreSums(cs[..|cs| - 1]);
    }
  }

  /** The statistics of two collections together combine those of each: the
      fold does not depend on where the collection is split. */
  lemma {:induction false} StatisticsAppend(a: seq<Campaign>, b: seq<Campaign>)
    ensures Statistics(a + b) == Combine(Statistics(a), Statistics(b))
    decreases |b|
  {
    if b == [] {
      assert a + b == a;
      CombineZero(Statistics(a));
    } else {
      var b' := b[..|b| - 1];
      var last := b[|b| - 1];
      assert (a + b)[..|a + b| - 1] == a + b';
      assert (a + b)[|a + b| - 1] == last;
      StatisticsAppend(a, b');
      var sa, sb' := Statistics(a), Statistics(b');
      assert Statistics(a + b) == Combine(Statistics(a + b'), Tally(last));
      assert Statistics(b) == Combine(sb', Tally(last));
      CombineAssociative(sa, sb', Tally(last));

    }
  }
}
