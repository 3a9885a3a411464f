/** The campaign tracking page: the progress figures of each campaign row,
    the client-side search over the loaded campaigns, the summary cards,
    the all-campaigns CSV export, the expand/collapse toggle with its cache
    of donors per campaign, and the campaigns fetch with its pager.
    Rendering, currency and date formatting are not modelled; the date
    formatter is a parameter. */
module CampaignTracking {
  import opened Basics
  import opened Text
  import opened Paging
  import opened Sorting
  import opened CampaignModel
  import opened DonorModel
  import opened AdminController
  import AdminDashboard

  /** `itemsPerPage`. */
  const PerPage := 10

  /** `goal - collected`. */
  function Remaining(c: Campaign): int
  {
    c.goal - c.collected
  }

  /** The progress bar: `Math.min(Math.round(collected / goal * 100), 100)`,
      the same expression as the model's `percentageCompleted` virtual. */
  function Progress(c: Campaign): int
    requires c.goal > 0
  {
    PercentageCompleted(c.collected, c.goal)
  }

  /** For a campaign with a positive goal and nothing negative collected
      the bar lies within [0, 100]; it is full exactly when at least 99.5%
      of the goal is collected, since the percentage is rounded; an
      over-funded campaign shows a full bar and a negative remaining
      amount. */
  lemma ProgressFigures(c: Campaign)
    requires c.goal > 0 && c.collected >= 0
    ensures 0 <= Progress(c) <= 100
    ensures Progress(c) == 100 <==> 200 * c.collected >= 199 * c.goal
    ensures Remaining(c) <= 0 ==> Progress(c) == 100
    ensures c.collected > c.goal ==> Remaining(c) < 0 && Progress(c) == 100
  {
    FullBar(c.collected, c.goal);
  }

  lemma FullBar(collected: int, goal: int)
    requires goal > 0
    ensures PercentageCompleted(collected, goal) == 100 <==> 200 * collected >= 199 * goal
  {
    var p := RoundedPercent(collected, goal);
    var g2 := 2 * goal;
    assert g2 * p <= 200 * collected + goal < g2 * (p + 1);
    if p >= 100 {
      MulMonotone(100, p, g2);
      assert 100 * g2 <= p * g2;
    } else {
      MulMonotone(p + 1, 100, g2);
      assert (p + 1) * g2 <= 100 * g2;
    }
  }

  /** The search test: an empty term matches everything, any other term
      must occur, ignoring case, in the title, creator name or creator
      email. */
  predicate SearchMatches(c: Campaign, term: string)
  {
    term == "" || ContainsIgnoreCase(c.title, term) || ContainsIgnoreCase(c.creatorName, term) || ContainsIgnoreCase(c.creatorEmail, term)
  }

  /** `filteredCampaigns`. */
  function SearchFilter(cs: seq<Campaign>, term: string): seq<Campaign>
  {
    Filter(cs, c => SearchMatches(c, term))
  }

  /** An empty search keeps the loaded campaigns as they are; otherwise the
      result holds exactly the loaded campaigns that match, in the loaded
      order, and searching within the result changes nothing. */
  lemma SearchFilterSelects(cs: seq<Campaign>, term: string, x: Campaign)
    ensures term == "" ==> SearchFilter(cs, term) == cs
    ensures x in SearchFilter(cs, term) <==> x in cs && SearchMatches(x, term)
    ensures SearchFilter(SearchFilter(cs, term), term) == SearchFilter(cs, term)
  {
    if term == "" {
      FilterAll(cs, c => SearchMatches(c, term));
    }
    if x in cs && SearchMatches(x, term) {
      FilterKeeps(cs, c => SearchMatches(c, term), x);
    }
    var r := SearchFilter(cs, term);
    FilterAll(r, c => SearchMatches(c, term));
  }

  function Goal(c: Campaign): int { c.goal }
  function Collected(c: Campaign): int { c.collected }
  function Donors(c: Campaign): int { c.donorCount }

  /** The three summary cards over the loaded page (not the searched
      subset). */
  datatype Totals = Totals(goal: int, collected: int, donors: int)

  function PageTotals(cs: seq<Campaign>): Totals
  {
    Totals(Sum(cs, Goal), Sum(cs, Collected), Sum(cs, Donors))
  }

  /** The goal card minus the collected card is the sum of the rows'
      remaining amounts. */
  lemma {:induction false} TotalsRemaining(cs: seq<Campaign>)
    ensures PageTotals(cs).goal - PageTotals(cs).collected == Sum(cs, Remaining)
    decreases |cs|
  {
    if cs != [] {
      TotalsRemaining(cs[..|cs| - 1]);
    }
  }

  /** The cards of two pages together are the sums of each page's cards,
      and stored campaigns give a non-negative collected total. */
  lemma TotalsAdd(a: seq<Campaign>, b: seq<Campaign>)
    ensures PageTotals(a + b) == Totals(PageTotals(a).goal + PageTotals(b).goal,
                                        PageTotals(a).collected + PageTotals(b).collected,
                                        PageTotals(a).donors + PageTotals(b).donors)
    ensures (forall i | 0 <= i < |a| :: SchemaValid(a[i])) ==> PageTotals(a).collected >= 0
  {
    SumAppend(a, b, Goal);
    SumAppend(a, b, Collected);
    SumAppend(a, b, Donors);
    if forall i | 0 <= i < |a| :: SchemaValid(a[i]) {
      SumNonNegative(a, Collected);
    }
  }

  /** The header line of the all-campaigns export. */
  const CsvHeader: seq<string> := ["Campaign ID", "Title", "Creator Name", "Creator Email", "Category", "Goal", "Collected", "Remaining", "Donors", "Status", "Created Date"]

  /** The eleven fields of a campaign's line, unquoted; `date` formats the
      creation time. */
  function CsvFields(c: Campaign, date: int -> string): (r: seq<string>)
    ensures |r| == |CsvHeader| == 11
  {
    [NatToString(c.id), c.title, c.creatorName, c.creatorEmail, CategoryName(c.category),
     IntToString(c.goal), IntToString(c.collected), IntToString(Remaining(c)), IntToString(c.donorCount),
     StatusName(c.status), date(c.createdAt)]
  }

  function CsvRow(c: Campaign, date: int -> string): string
  {
    Join(CsvFields(c, date), ",")
  }

  /** The header line, then one line per campaign. */
  function CsvLines(rows: seq<Campaign>, date: int -> string): (lines: seq<string>)
    ensures |lines| == 1 + |rows|
  {
    [Join(CsvHeader, ",")] + seq(|rows|, k requires 0 <= k < |rows| => CsvRow(rows[k], date))
  }

  /** `exportAllCampaignsToCSV` over the searched campaigns. */
  function Csv(cs: seq<Campaign>, term: string, date: int -> string): string
  {
    Join(CsvLines(SearchFilter(cs, term), date), "\n")
  }

  /** Neither a comma nor a line break. */
  predicate Clean(s: string)
  {
    ',' !in s && '\n' !in s
  }

  /** The free-text fields of a campaign's line carry no separator. */
  predicate RowClean(c: Campaign, date: int -> string)
  {
    Clean(c.title) && Clean(c.creatorName) && Clean(c.creatorEmail) && Clean(date(c.createdAt))
  }

  lemma DigitsClean(n: nat)
    ensures Clean(NatToString(n))
  {
    var s := NatToString(n);
    assert forall k | 0 <= k < |s| :: s[k] != ',' && s[k] != '\n';
  }

  lemma NumberClean(n: int)
    ensures Clean(IntToString(n))
  {
    if n >= 0 {
      DigitsClean(n);
    } else {
      DigitsClean(-n);
      var s := IntToString(n);
      assert forall k | 0 <= k < |s| :: s[k] != ',' && s[k] != '\n' by {
        forall k | 0 <= k < |s| ensures s[k] != ',' && s[k] != '\n' {
          if k > 0 { assert s[k] == NatToString(-n)[k - 1]; }
        }
      }
    }
  }

  lemma FieldsClean(c: Campaign, date: int -> string)
    requires RowClean(c, date)
    ensures forall k | 0 <= k < |CsvFields(c, date)| :: Clean(CsvFields(c, date)[k])
  {
    DigitsClean(c.id);
    NumberClean(c.goal);
    NumberClean(c.collected);
    NumberClean(Remaining(c));
    NumberClean(c.donorCount);
  }

  /** Joining pieces that avoid a character with a different separator
      gives a string that avoids it too. */
  lemma {:induction false} JoinAvoids(parts: seq<string>, sep: char, x: char)
    requires x != sep && forall k | 0 <= k < |parts| :: x !in parts[k]
    ensures x !in Join(parts, [sep])
    decreases |parts|
  {
    if |parts| > 1 {
      JoinAvoids(parts[1..], sep, x);
    }
  }

  /** The header line splits back into the eleven column names. */
  lemma HeaderReadsBack()
    ensures '\n' !in Join(CsvHeader, ",")
    ensures Split(Join(CsvHeader, ","), ',') == CsvHeader
  {
    assert forall k | 0 <= k < |CsvHeader| :: Clean(CsvHeader[k]);
    JoinAvoids(CsvHeader, ',', '\n');
    SplitJoin(CsvHeader, ',');
  }

  /** A campaign line without separators in its free text is one line,
      and splits back into the campaign's eleven fields. */
  lemma RowReadsBack(c: Campaign, date: int -> string)
    requires RowClean(c, date)
    ensures '\n' !in CsvRow(c, date)
    ensures Split(CsvRow(c, date), ',') == CsvFields(c, date)
  {
    FieldsClean(c, date);
    JoinAvoids(CsvFields(c, date), ',', '\n');
    SplitJoin(CsvFields(c, date), ',');
  }

  /** The header line is a single line. */
  lemma HeaderLineSingle(rows: seq<Campaign>, date: int -> string)
    ensures '\n' !in CsvLines(rows, date)[0]
  {
    HeaderReadsBack();
  }

  /** The line of a campaign without separators in its free text is a
      single line that splits back into its fields. */
  lemma LineReadsBack(rows: seq<Campaign>, date: int -> string, k: nat)
    requires k < |rows| && RowClean(rows[k], date)
    ensures var line := CsvLines(rows, date)[k + 1];
      '\n' !in line && Split(line, ',') == CsvFields(rows[k], date)
  {
    assert CsvLines(rows, date)[k + 1] == CsvRow(rows[k], date);
    RowReadsBack(rows[k], date);
  }

  /** Every line of an export whose campaigns carry no separators in their
      free text is a single line, and each campaign line splits back into
      its fields. */
  lemma LinesReadBack(rows: seq<Campaign>, date: int -> string)
    requires forall k | 0 <= k < |rows| :: RowClean(rows[k], date)
    ensures var lines := CsvLines(rows, date);
      && (forall k | 0 <= k < |lines| :: '\n' !in lines[k])
      && (forall k | 0 <= k < |rows| :: Split(lines[k + 1], ',') == CsvFields(rows[k], date))
  {
    var lines := CsvLines(rows, date);
    forall k | 0 <= k < |lines| ensures '\n' !in lines[k] {
      if k == 0 {
        HeaderLineSingle(rows, date);
      } else {
        LineReadsBack(rows, date, k - 1);
      }
    }
    forall k | 0 <= k < |rows| ensures Split(lines[k + 1], ',') == CsvFields(rows[k], date) {
      LineReadsBack(rows, date, k);
    }
  }

  /** When no free-text field of an exported campaign holds a comma or a
      line break, the export reads back as it was built: one header line of
      the eleven column names, then one line per searched campaign, in
      order, each splitting at its commas into exactly that campaign's
      eleven fields. */
  lemma CsvReadsBack(cs: seq<Campaign>, term: string, date: int -> string)
    requires forall c | c in SearchFilter(cs, term) :: RowClean(c, date)
    ensures var rows := SearchFilter(cs, term);
      var lines := Split(Csv(cs, term, date), '\n');
      && |lines| == 1 + |rows|
      && Split(lines[0], ',') == CsvHeader
      && forall k | 0 <= k < |rows| :: Split(lines[k + 1], ',') == CsvFields(rows[k], date)
  {
    var rows := SearchFilter(cs, term);
    assert forall k | 0 <= k < |rows| :: RowClean(rows[k], date) by {
      forall k | 0 <= k < |rows| ensures RowClean(rows[k], date) {
        assert rows[k] in rows;
      }
    }
    LinesReadBack(rows, date);
    SplitJoin(CsvLines(rows, date), '\n');
    HeaderReadsBack();
  }

  /** Nothing is quoted: a title holding one comma, "a,b", makes its line
      split into twelve fields under eleven column names. */
  lemma CommaInTitleShiftsColumns(c: Campaign, date: int -> string)
    requires c.title == "a,b" && Clean(c.creatorName) && Clean(c.creatorEmail) && Clean(date(c.createdAt))
    ensures |Split(CsvRow(c, date), ',')| == 12
  {
    var f := CsvFields(c, date);
    var g := [f[0], "a", "b"] + f[2..];
    JoinSplitsField(f, "a", "b");
    FieldsClean(c.(title := "ab"), date);
    assert forall k | 2 <= k < |f| :: f[k] == CsvFields(c.(title := "ab"), date)[k];
    assert forall k | 0 <= k < |g| :: ',' !in g[k] by {
      forall k | 0 <= k < |g| ensures ',' !in g[k] {
        if k >= 3 { assert g[k] == f[k - 1]; }
      }
    }
    SplitJoin(g, ',');
  }

  /** A field holding a + "," + b joins like the two fields a and b. */
  lemma JoinSplitsField(f: seq<string>, a: string, b: string)
    requires |f| >= 3 && f[1] == a + "," + b
    ensures Join(f, ",") == Join([f[0], a, b] + f[2..], ",")
  {
    var g := [f[0], a, b] + f[2..];
    var tail := Join(f[2..], ",");
    assert f[1..][1..] == f[2..];
    assert Join(f[1..], ",") == f[1] + "," + tail;
    assert g[2..][1..] == f[2..];
    assert Join(g[2..], ",") == b + "," + tail;
    assert g[1..][1..] == g[2..];
    assert Join(g[1..], ",") == a + "," + (b + "," + tail);
    assert f[1] + "," + tail == a + "," + (b + "," + tail);
  }

  /** The expanded campaign, if any, and the donors fetched so far, by
      campaign. */
  datatype Tracking = Tracking(expanded: Option<nat>, donors: map<nat, seq<Donation>>)

  /** `toggleCampaign(id)`: clicking the expanded campaign collapses it;
      clicking another expands it and, unless its donors are cached (an
      empty list counts), stores the fetched list, when the fetch
      succeeded. */
  function Toggle(t: Tracking, id: nat, fetched: Option<seq<Donation>>): Tracking
  {
    if t.expanded == Some(id) then t.(expanded := None)
    else
      var shown := t.(expanded := Some(id));
      if id in t.donors || fetched.None? then shown
      else shown.(donors := t.donors[id := fetched.value])
  }

  /** Collapsing and expanding alternate; the cache only grows, an entry
      once cached never changes, and a cached campaign's donors are not
      fetched again, so the answer of a later fetch does not matter. */
  lemma ToggleRules(t: Tracking, id: nat, f1: Option<seq<Donation>>, f2: Option<seq<Donation>>)
    ensures t.expanded == Some(id) ==> Toggle(t, id, f1) == t.(expanded := None)
    ensures t.expanded != Some(id) ==> Toggle(t, id, f1).expanded == Some(id)
    ensures t.donors.Keys <= Toggle(t, id, f1).donors.Keys
    ensures forall k | k in t.donors :: Toggle(t, id, f1).donors[k] == t.donors[k]
    ensures id in t.donors ==> Toggle(t, id, f1) == Toggle(t, id, f2)
    ensures t.expanded != Some(id) && f1.Some? ==> id in Toggle(t, id, f1).donors
    ensures Toggle(Toggle(t, id, f1), id, f2).expanded == (if t.expanded == Some(id) then Some(id) else None)
  {
  }

  /** The donors fetch of a campaign: its id and a limit of 1000, no status
      and no page. */
  function DonorsFetch(id: nat): DonorQuery
  {
    DonorQuery(None, Some(1000), None, Some(id), None)
  }

  /** A click, with the fetch answered by the admin donors endpoint over
      the recorded donations. */
  function ToggleAgainst(t: Tracking, id: nat, ds: seq<Donation>): Tracking
  {
    var reply := AllDonors(ds, DonorsFetch(id));
    Toggle(t, id, if reply.Ok? then Some(reply.data.items) else None)
  }

  /** Every cached list holds recorded, completed donations of its own
      campaign, at most 1000 of them. */
  predicate CacheFaithful(t: Tracking, ds: seq<Donation>)
  {
    forall k | k in t.donors ::
      |t.donors[k]| <= 1000 &&
      forall d | d in t.donors[k] :: d in ds && d.campaignId == k && IsCompleted(d)
  }

  /** Clicks answered by the server keep the cache faithful: since the fetch
      sends no status, the server's 'completed' default applies, and the
      page shows the completed donations only. */
  lemma ToggleKeepsCacheFaithful(t: Tracking, id: nat, ds: seq<Donation>)
    requires CacheFaithful(t, ds)
    ensures CacheFaithful(ToggleAgainst(t, id, ds), ds)
  {
    FetchedDonorsFaithful(ds, id);
  }

  /** A campaign's fetched donors are min(1000, #matches) of its completed
      donations, and when it has at most 1000 matching donations every
      completed donation of it is fetched. */
  lemma FetchedDonorsFaithful(ds: seq<Donation>, id: nat)
    ensures var reply := AllDonors(ds, DonorsFetch(id));
      var m := DonorsMatching(ds, DonorsFetch(id));
      && reply.Ok? && |reply.data.items| == Min(1000, |m|)
      && (forall d | d in reply.data.items :: d in ds && d.campaignId == id && IsCompleted(d))
      && (|m| <= 1000 ==> forall d | d in ds && d.campaignId == id && IsCompleted(d) :: d in reply.data.items)
  {
    FetchedPage(ds, id);
    FetchedDrawn(ds, id);
    FetchedAll(ds, id);
  }

  /** The fetch is served, holding min(1000, #matches) donations, all of
      the matches when they fit. */
  lemma FetchedPage(ds: seq<Donation>, id: nat)
    ensures var reply := AllDonors(ds, DonorsFetch(id));
      var m := DonorsMatching(ds, DonorsFetch(id));
      && reply.Ok? && |reply.data.items| == Min(1000, |m|)
      && (|m| <= 1000 ==> multiset(reply.data.items) == multiset(m))
  {
    var m := DonorsMatching(ds, DonorsFetch(id));
    FirstPage(m, ByDate, None, 1000, "Error fetching donors");
  }

  /** Every fetched donation is a completed donation of the campaign. */
  lemma FetchedDrawn(ds: seq<Donation>, id: nat)
    ensures var reply := AllDonors(ds, DonorsFetch(id));
      reply.Ok? ==> forall d | d in reply.data.items :: d in ds && d.campaignId == id && IsCompleted(d)
  {
    var q := DonorsFetch(id);
    var reply := AllDonors(ds, q);
    if reply.Ok? {
      forall d | d in reply.data.items ensures d in ds && d.campaignId == id && IsCompleted(d) {
        AdminPageItems(DonorsMatching(ds, q), ByDate, q.page, q.limit, "Error fetching donors");
        FetchedSelected(ds, id, d);
      }
    }
  }

  /** With at most 1000 matches, every completed donation of the campaign
      is fetched. */
  lemma FetchedAll(ds: seq<Donation>, id: nat)
    ensures var reply := AllDonors(ds, DonorsFetch(id));
      var m := DonorsMatching(ds, DonorsFetch(id));
      reply.Ok? && |m| <= 1000 ==>
        forall d | d in ds && d.campaignId == id && IsCompleted(d) :: d in reply.data.items
  {
    var m := DonorsMatching(ds, DonorsFetch(id));
    var reply := AllDonors(ds, DonorsFetch(id));
    FetchedPage(ds, id);
    if reply.Ok? && |m| <= 1000 {
      forall d | d in ds && d.campaignId == id && IsCompleted(d) ensures d in reply.data.items {
        FetchedSelected(ds, id, d);
        assert d in multiset(m);
      }
    }
  }

  /** The donations the fetch of a campaign selects are exactly its
      completed ones. */
  lemma FetchedSelected(ds: seq<Donation>, id: nat, d: Donation)
    ensures d in DonorsMatching(ds, DonorsFetch(id)) <==> d in ds && d.campaignId == id && IsCompleted(d)
  {
    var q := DonorsFetch(id);
    DonorsSelection(ds, q, d);
    assert RequestedStatus(q) == "completed";
    assert DonorSelected(q, d) <==> PaymentStatusName(d.paymentStatus) == "completed" && d.campaignId == id;
  }

  /** The first page of an admin listing with a positive limit holds
      min(limit, #matches) items, and all of them when they fit. */
  lemma FirstPage<T>(matching: seq<T>, key: T -> SortKey, page: Option<int>, l: int, error: string)
    requires IfMissing(page, 1) == 1 && l > 0
    ensures var r := AdminPage(matching, key, page, Some(l), error);
      && r.Ok? && |r.data.items| == Min(l, |matching|)
      && (|matching| <= l ==> multiset(r.data.items) == multiset(matching))
  {
    var sorted := SortDesc(matching, key);
    var w := Window(sorted, 0, l);
    assert Drop(sorted, 0) == sorted;
    assert |w| == Min(l, |sorted|);
    assert Paginate(sorted, 1, l) == Some(Listing(w, |w|, |sorted|, 1, Some(CeilDiv(|sorted|, l))));
    if |matching| <= l {
      assert w == sorted;
    }
  }

  /** The campaigns fetch: page, 10 per page, and the status and category
      filters unless they are 'all'. The search is applied on the page. */
  function CampaignsFetch(page: int, status: string, category: string): AdminCampaignQuery
  {
    AdminCampaignQuery(Some(page), Some(PerPage),
      if status == "all" || status == "" then None else Some(status),
      if category == "all" || category == "" then None else Some(category),
      None)
  }

  /** Walking the pager with Previous and Next from a page in
      [1, totalPages] stays there, and every page it reaches is served: at
      most ten campaigns of the chosen status and category. */
  lemma PagerFetchesServed(cs: seq<Campaign>, page: int, status: string, category: string)
    requires var total := CeilDiv(|CampaignsMatching(cs, CampaignsFetch(1, status, category))|, PerPage);
      1 <= page <= total
    ensures var total := CeilDiv(|CampaignsMatching(cs, CampaignsFetch(1, status, category))|, PerPage);
      && 1 <= AdminDashboard.Previous(page) <= total
      && 1 <= AdminDashboard.Next(page, total) <= total
    ensures forall p | p == AdminDashboard.Previous(page) || p == AdminDashboard.Next(page, CeilDiv(|CampaignsMatching(cs, CampaignsFetch(1, status, category))|, PerPage)) ::
      var r := AdminCampaigns(cs, CampaignsFetch(p, status, category));
      && r.Ok? && r.data.count <= PerPage
      && forall x | x in r.data.items :: x in cs && CampaignSelected(CampaignsFetch(1, status, category), x)
  {
    var total := CeilDiv(|CampaignsMatching(cs, CampaignsFetch(1, status, category))|, PerPage);
    AdminDashboard.PrevNextStayInRange(page, total);
    forall p | p == AdminDashboard.Previous(page) || p == AdminDashboard.Next(page, total)
      ensures var r := AdminCampaigns(cs, CampaignsFetch(p, status, category));
        && r.Ok? && r.data.count <= PerPage
        && forall x | x in r.data.items :: x in cs && CampaignSelected(CampaignsFetch(1, status, category), x)
    {
      assert CampaignsFetch(p, status, category) == CampaignsFetch(1, status, category).(page := Some(p));
      AdminCampaignsPage(cs, CampaignsFetch(p, status, category));
    }
  }
}
