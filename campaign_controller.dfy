/** The campaign endpoints: `createCampaign`, `getAllCampaigns`,
    `getCampaignById`, `updateCampaign`, `deleteCampaign` and
    `getCampaignStats`, over the campaigns collection of the store. */
module CampaignController {
  import opened Basics
  import opened Text
  import opened Sorting
  import opened Paging
  import opened CampaignModel
  import opened DonorModel
  import opened Store

  const MissingCampaignFields := "Please provide all required fields"
  const CreateError := "Error creating campaign"
  const FetchError := "Error fetching campaigns"
  const NotFound := "Campaign not found"
  const UpdateError := "Error updating campaign"

  /** The body of `POST /api/campaigns`; a missing field is `None`. */
  datatype CampaignBody = CampaignBody(
    title: Option<string>,
    description: Option<string>,
    category: Option<string>,
    goal: Option<int>,
    duration: Option<int>,
    image: Option<string>,
    documents: Option<seq<string>>,
    creatorName: Option<string>,
    creatorEmail: Option<string>,
    isUrgent: Option<bool>)

  /** `!s` for a string: missing or empty. */
  predicate FalsyText(s: Option<string>)
  {
    s.None? || s.value == ""
  }

  /** `!n` for a number: missing or zero. */
  predicate FalsyNumber(n: Option<int>)
  {
    n.None? || n.value == 0
  }

  /** `s || d` for a string. */
  function TextOr(s: Option<string>, d: string): (r: string)
    ensures FalsyText(s) ==> r == d
    ensures !FalsyText(s) ==> r == s.value
  {
    if FalsyText(s) then d else s.value
  }

  /** `!title || !description || !category || !goal || !duration`. */
  predicate MissingField(b: CampaignBody)
  {
    FalsyText(b.title) || FalsyText(b.description) || FalsyText(b.category)
    || FalsyNumber(b.goal) || FalsyNumber(b.duration)
  }

  /** The document `Campaign.create` builds from a complete body, with
      new id `id`: the `||` defaults of the handler, the `trim` and
      `lowercase` setters, status 'active', nothing collected, started and
      created now, and no end date yet. An unknown category is `None`: the
      enum validator refuses it. */
  function NewCampaign(b: CampaignBody, id: nat, now: int): (r: Option<Campaign>)
    requires !MissingField(b)
    ensures r.Some? <==> ParseCategory(b.category.value).Some?
  {
    var category := ParseCategory(b.category.value);
    if category.None? then None
    else
      Some(Campaign(
        id, Trim(b.title.value), Trim(b.description.value), category.value,
        b.goal.value, 0, now, None, b.duration.value, Active,
        TextOr(b.image, ""),
        if b.documents.Some? then b.documents.value else [],
        Trim(TextOr(b.creatorName, "Anonymous")),
        NormaliseEmail(TextOr(b.creatorEmail, "")),
        0, b.isUrgent == Some(true), false, None, None, None, now))
  }

  /** `createCampaign` as a function of the campaigns and the id generator:
      the answer, the new campaigns and the next id. The document is saved
      new: the end-date hook, the status hook, then the validators. */
  function CreateCampaignSpec(cs: seq<Campaign>, nextId: nat, b: CampaignBody, now: int)
    : (Reply<Campaign>, seq<Campaign>, nat)
  {
    CreateWith(cs, nextId, b, now, false)
  }

  /** `createCampaign` with `save()` as Mongoose orders it, validators
      first. */
  function CreateCampaignAsWritten(cs: seq<Campaign>, nextId: nat, b: CampaignBody, now: int)
    : (Reply<Campaign>, seq<Campaign>, nat)
  {
    CreateWith(cs, nextId, b, now, true)
  }

  /** The handler over either ordering of `save()`. */
  function CreateWith(cs: seq<Campaign>, nextId: nat, b: CampaignBody, now: int, validateFirst: bool)
    : (Reply<Campaign>, seq<Campaign>, nat)
  {
    if MissingField(b) then (Fail(400, MissingCampaignFields), cs, nextId)
    else
      var c := NewCampaign(b, nextId, now);
      if c.None? then (Fail(500, CreateError), cs, nextId)
      else
        var saved := if validateFirst then SaveOutcomeAsWritten(c.value, true, now) else SaveOutcome(c.value, true, now);
        match saved
        case None => (Fail(500, CreateError), cs, nextId)
        case Some(v) =>
          var next: nat := nextId + 1;
          (Ok(201, v), cs + [v], next)
  }

  /** As written, `createCampaign` never creates anything: a body missing a
      required field gets 400 and every other body 500. */
  lemma CreateCampaignAsWrittenNeverCreates(cs: seq<Campaign>, nextId: nat, b: CampaignBody, now: int)
    ensures var (reply, cs', nextId') := CreateCampaignAsWritten(cs, nextId, b, now);
      && reply.Fail? && cs' == cs && nextId' == nextId
      && (reply.code == 400 <==> MissingField(b))
  {
    if !MissingField(b) {
      var c := NewCampaign(b, nextId, now);
      if c.Some? {
        AsWrittenRejectsNewCampaigns(c.value, now);
      }
    }
  }

  /** A missing required field gives 400 and changes nothing; any failure
      changes nothing; a campaign is created exactly when the category is
      known and the document, with its end date set, passes the
      validators. */
  lemma CreateCampaignOutcomes(cs: seq<Campaign>, nextId: nat, b: CampaignBody, now: int)
    ensures var (reply, cs', nextId') := CreateCampaignSpec(cs, nextId, b, now);
      && (MissingField(b) ==> reply == Fail(400, MissingCampaignFields))
      && (reply.Fail? ==> cs' == cs && nextId' == nextId)
      && (reply.Ok? <==>
            && !MissingField(b)
            && NewCampaign(b, nextId, now).Some?
            && SchemaValid(NewCampaign(b, nextId, now).value.(endDate := Some(now + b.duration.value * DAY_MS))))
  {
    if !MissingField(b) && NewCampaign(b, nextId, now).Some? {
      NewCampaignSave(NewCampaign(b, nextId, now).value, now);
    }
  }

  /** The document built from a complete body with a known category is
      active, has the fresh id, nothing collected and no donors, no end date
      yet, and carries the handler's defaults: creator 'Anonymous', not
      urgent and no documents when the body leaves them out. */
  lemma NewCampaignDefaults(b: CampaignBody, id: nat, now: int)
    requires !MissingField(b) && ParseCategory(b.category.value).Some?
    ensures var c := NewCampaign(b, id, now).value;
      && c.id == id && c.status == Active
      && c.collected == 0 && c.donorCount == 0
      && c.endDate.None? && c.startDate == now && c.createdAt == now
      && c.title == Trim(b.title.value) && c.goal == b.goal.value && c.duration == b.duration.value
      && Some(c.category) == ParseCategory(b.category.value)
      && c.creatorName == Trim(TextOr(b.creatorName, "Anonymous"))
      && (FalsyText(b.creatorName) ==> c.creatorName == "Anonymous")
      && c.isUrgent == (b.isUrgent == Some(true))
      && (b.documents.None? ==> c.documents == [])
  {
    assert Trim("Anonymous") == "Anonymous" by {
      assert TrimStart("Anonymous") == "Anonymous";
      assert TrimEnd("Anonymous") == "Anonymous";
    }
  }

  /** A created campaign is that document with its end date `duration` days
      from now, still active and valid; it is appended to the campaigns and
      the id generator moves on. */
  lemma CreateCampaignStores(cs: seq<Campaign>, nextId: nat, b: CampaignBody, now: int)
    requires CreateCampaignSpec(cs, nextId, b, now).0.Ok?
    ensures !MissingField(b) && NewCampaign(b, nextId, now).Some?
    ensures var (reply, cs', nextId') := CreateCampaignSpec(cs, nextId, b, now);
      var c := reply.data;
      && reply.code == 201
      && cs' == cs + [c] && nextId' == nextId + 1
      && c == NewCampaign(b, nextId, now).value.(endDate := Some(now + b.duration.value * DAY_MS))
      && c.status == Active && SchemaValid(c)
  {
    NewCampaignSave(NewCampaign(b, nextId, now).value, now);
  }

  /** Creating a campaign keeps the store valid and the ledger balanced: the
      new campaign has nothing collected, and no donation names its id. */
  lemma CreateCampaignKeepsLedger(cs: seq<Campaign>, ds: seq<Donation>, nextId: nat, b: CampaignBody, now: int)
    requires StoreValid(cs, ds, nextId) && Reconciled(cs, ds)
    ensures var (_, cs', nextId') := CreateCampaignSpec(cs, nextId, b, now);
      StoreValid(cs', ds, nextId') && Reconciled(cs', ds)
  {
    var (reply, cs', nextId') := CreateCampaignSpec(cs, nextId, b, now);
    if reply.Ok? {
      CreateCampaignStores(cs, nextId, b, now);
      NewCampaignDefaults(b, nextId, now);
      NothingCredited(ds, nextId);
      assert cs'[|cs|] == reply.data;
    }
  }
  /** Creation keeps the store valid and balanced in either validation
      order: as written nothing is stored, and the corrected order is
      `CreateCampaignKeepsLedger`. */
  lemma CreateWithKeepsLedger(cs: seq<Campaign>, ds: seq<Donation>, nextId: nat, b: CampaignBody, now: int, validateFirst: bool)
    requires StoreValid(cs, ds, nextId) && Reconciled(cs, ds)
    ensures var (_, cs', nextId') := CreateWith(cs, nextId, b, now, validateFirst);
      StoreValid(cs', ds, nextId') && Reconciled(cs', ds)
  {
    if validateFirst {
      CreateCampaignAsWrittenNeverCreates(cs, nextId, b, now);
    } else {
      CreateCampaignKeepsLedger(cs, ds, nextId, b, now);
    }
  }


  /** `createCampaign`, step by step: the required-field check, the new
      document, its `save()`, and the insert. With `validateFirst`, `save()`
      runs in Mongoose's order and the handler is `CreateCampaignAsWritten`,
      which never creates anything; without it the end-date hook runs before
      the validators and the handler is `CreateCampaignSpec`. */
  method CreateCampaign(db: Database, body: CampaignBody, now: int, validateFirst: bool) returns (reply: Reply<Campaign>)
    modifies db
    ensures (reply, db.campaigns, db.nextId) == CreateWith(old(db.campaigns), old(db.nextId), body, now, validateFirst)
    ensures db.donations == old(db.donations) && db.admins == old(db.admins)
    ensures old(db.Valid() && Reconciled(db.campaigns, db.donations)) ==> db.Valid() && Reconciled(db.campaigns, db.donations)
  {
    if db.Valid() && Reconciled(db.campaigns, db.donations) {
      CreateWithKeepsLedger(db.campaigns, db.donations, db.nextId, body, now, validateFirst);
    }
    if MissingField(body) {
      return Fail(400, MissingCampaignFields);
    }
    ghost var cs0, n0 := db.campaigns, db.nextId;
    var rec := NewCampaign(body, db.nextId, now);
    if rec.None? {
      return Fail(500, CreateError);
    }
    var doc := new CampaignDoc(rec.value, true);
    var saved := doc.Save(now, validateFirst);
    if saved.None? {
      return Fail(500, CreateError);
    }
    var next: nat := db.nextId + 1;
    assert CreateWith(cs0, n0, body, now, validateFirst) == (Ok(201, saved.value), cs0 + [saved.value], next);
    db.campaigns := db.campaigns + [saved.value];
    db.nextId := next;
    reply := Ok(201, saved.value);
  }

  /** The query of `GET /api/campaigns`; `None` is a missing (or, for the
      numbers, unparsable) value. */
  datatype CampaignQuery = CampaignQuery(
    category: Option<string>,
    status: Option<string>,
    search: Option<string>,
    limit: Option<int>,
    page: Option<int>,
    sortBy: Option<string>)

  /** The filter object: a category unless it is missing, empty or 'All
      Campaigns' (the path's `lowercase` setter also applies to the query
      value); the requested status, 'active' by default; and, for a
      non-empty search, a case-insensitive match in the title or the
      description. */
  predicate Selects(q: CampaignQuery, c: Campaign)
  {
    && (FalsyText(q.category) || q.category.value == "All Campaigns" || Lower(q.category.value) == CategoryName(c.category))
    && StatusName(c.status) == TextOr(q.status, "active")
    && (FalsyText(q.search) || ContainsIgnoreCase(c.title, q.search.value) || ContainsIgnoreCase(c.description, q.search.value))
  }

  /** The campaigns the filter selects, in collection order. */
  function Listed(cs: seq<Campaign>, q: CampaignQuery): seq<Campaign>
  {
    Filter(cs, (c: Campaign) => Selects(q, c))
  }

  lemma ListedSelects(cs: seq<Campaign>, q: CampaignQuery, x: Campaign)
    ensures x in Listed(cs, q) <==> x in cs && Selects(q, x)
  {
    if x in cs && Selects(q, x) {
      FilterKeeps(cs, (c: Campaign) => Selects(q, c), x);
    }
  }

  /** With no status requested only active campaigns are listed, and a
      category of 'All Campaigns' filters nothing. */
  lemma SelectsDefaults(q: CampaignQuery, c: Campaign)
    ensures FalsyText(q.status) && Selects(q, c) ==> c.status == Active
    ensures q.category == Some("All Campaigns") ==>
      (Selects(q, c) <==> Selects(q.(category := None), c))
  {
    if FalsyText(q.status) && Selects(q, c) {
      ParseStatusExact("active", c.status);
    }
  }

  function ByStart(c: Campaign): SortKey { SortKey(c.startDate, 0) }
  function ByUrgency(c: Campaign): SortKey { SortKey(if c.isUrgent then 1 else 0, c.startDate) }
  function ByDonors(c: Campaign): SortKey { SortKey(c.donorCount, 0) }
  function ByGoal(c: Campaign): SortKey { SortKey(c.goal, 0) }

  /** The sort `sortBy` selects: 'urgent' is urgent first then newest,
      'popular' most donors, 'goal' largest goal, anything else newest. */
  function SortFor(sortBy: Option<string>): (key: Campaign -> SortKey)
  {
    if sortBy == Some("urgent") then ByUrgency
    else if sortBy == Some("popular") then ByDonors
    else if sortBy == Some("goal") then ByGoal
    else ByStart
  }

  /** `getAllCampaigns`: the selected campaigns, sorted, one page of them;
      page defaults to 1 and limit to 20 (also for 0); a negative skip is
      refused by MongoDB (500). */
  function AllCampaigns(cs: seq<Campaign>, q: CampaignQuery): Reply<Listing<Campaign>>
  {
    var page := Paginate(SortDesc(Listed(cs, q), SortFor(q.sortBy)), OrDefault(q.page, 1), OrDefault(q.limit, 20));
    if page.None? then Fail(500, FetchError) else Ok(200, page.value)
  }

  /** The envelope: with no page or limit given, the first page of 20;
      `total` counts every campaign the same filter selects, and `pages` is
      the number of pages of `limit` that hold them. */
  lemma AllCampaignsEnvelope(cs: seq<Campaign>, q: CampaignQuery)
    requires OrDefault(q.page, 1) >= 1 && OrDefault(q.limit, 20) > 0
    ensures var r := AllCampaigns(cs, q);
      var limit := OrDefault(q.limit, 20);
      && r.Ok? && r.code == 200
      && (q.page.None? && q.limit.None? ==> r.data.page == 1 && r.data.count <= 20)
      && r.data.count == |r.data.items| <= limit
      && r.data.total == |Listed(cs, q)|
      && r.data.pages == Some(CeilDiv(|Listed(cs, q)|, limit))
  {
    var sorted := SortDesc(Listed(cs, q), SortFor(q.sortBy));
    PaginateProperties(sorted, OrDefault(q.page, 1), OrDefault(q.limit, 20));
    assert AllCampaigns(cs, q) == Ok(200, Paginate(sorted, OrDefault(q.page, 1), OrDefault(q.limit, 20)).value);
  }

  /** A page holds only campaigns the filter selects, in the requested
      order. */
  lemma AllCampaignsItems(cs: seq<Campaign>, q: CampaignQuery)
    requires OrDefault(q.page, 1) >= 1 && OrDefault(q.limit, 20) > 0
    ensures AllCampaigns(cs, q).Ok?
    ensures var items := AllCampaigns(cs, q).data.items;
      && (forall i | 0 <= i < |items| :: items[i] in Listed(cs, q))
      && SortedDesc(items, SortFor(q.sortBy))
  {
    var matching := Listed(cs, q);
    var key := SortFor(q.sortBy);
    var page := OrDefault(q.page, 1);
    var limit := OrDefault(q.limit, 20);
    SortedPageProperties(matching, key, page, limit);
    assert AllCampaigns(cs, q) == Ok(200, Paginate(SortDesc(matching, key), page, limit).value);
    var items := Paginate(SortDesc(matching, key), page, limit).value.items;
    forall i | 0 <= i < |items| ensures items[i] in matching {
      assert items[i] in items;
    }
  }

  /** `getCampaignById`: the campaign with that id, or 404. */
  function CampaignById(cs: seq<Campaign>, id: nat): (r: Reply<Campaign>)
    ensures r.Ok? ==> r.code == 200 && r.data in cs && r.data.id == id
    ensures r.Fail? ==> r == Fail(404, NotFound) && forall i | 0 <= i < |cs| :: cs[i].id != id
  {
    var i := IndexOf(cs, id);
    if i.None? then Fail(404, NotFound) else Ok(200, cs[i.value])
  }


  /** A JSON value of a request body. */
  datatype Value = Str(s: string) | Num(n: int) | Flag(b: bool) | Strs(items: seq<string>) | Null

  /** What Mongoose makes of a value assigned to a path: the cast value,
      null, or a cast error (which makes the next `save()` fail). */
  datatype Cast<T> = Cast(value: T) | Nothing | Invalid

  /** The cast to a String path: numbers and booleans by `String(..)`; an
      array has no string form. */
  function CastString(v: Value): Cast<string>
  {
    match v
    case Str(s) => Cast(s)
    case Num(n) => Cast(IntToString(n))
    case Flag(b) => Cast(if b then "true" else "false")
    case Strs(_) => Invalid
    case Null => Nothing
  }

  function DigitValue(c: char): int
  {
    c as int - '0' as int
  }

  predicate AllDigits(s: string)
  {
    forall k | 0 <= k < |s| :: '0' <= s[k] <= '9'
  }

  /** The value of a string of decimal digits. */
  function DigitsValue(s: string): nat
    requires AllDigits(s)
    decreases |s|
  {
    if s == [] then 0 else 10 * DigitsValue(s[..|s| - 1]) + DigitValue(s[|s| - 1])
  }

  /** `Number(t)` on a trimmed string that is empty or an optionally signed
      run of decimal digits; anything else is NaN, a cast error. */
  function ParseInteger(t: string): Cast<int>
  {
    if t == [] then Cast(0)
    else if AllDigits(t) then Cast(DigitsValue(t))
    else if (t[0] == '-' || t[0] == '+') && |t| > 1 && AllDigits(t[1..]) then
      var m: int := DigitsValue(t[1..]);
      Cast(if t[0] == '-' then -m else m)
    else Invalid
  }

  /** The cast to a Number path: '' is null, any other string goes through
      `Number(..)` (which ignores surrounding whitespace), booleans are 1 and
      0; an array is a cast error. */
  function CastNumber(v: Value): Cast<int>
  {
    match v
    case Num(n) => Cast(n)
    case Flag(b) => Cast(if b then 1 else 0)
    case Str(s) => if s == "" then Nothing else ParseInteger(Trim(s))
    case Strs(_) => Invalid
    case Null => Nothing
  }

  /** The cast to a Boolean path: true, 'true', 1, '1' and 'yes' are true;
      false, 'false', 0, '0' and 'no' are false; anything else is a cast
      error. */
  function CastBoolean(v: Value): Cast<bool>
  {
    match v
    case Flag(b) => Cast(b)
    case Str(s) =>
      if s == "true" || s == "1" || s == "yes" then Cast(true)
      else if s == "false" || s == "0" || s == "no" then Cast(false)
      else Invalid
    case Num(n) => if n == 1 then Cast(true) else if n == 0 then Cast(false) else Invalid
    case Strs(_) => Invalid
    case Null => Nothing
  }

  /** The cast to an array of String: each element cast to a string, and a
      single value wrapped in an array. */
  function CastStrings(v: Value): Cast<seq<string>>
  {
    match v
    case Strs(xs) => Cast(xs)
    case Null => Nothing
    case Str(s) => Cast([s])
    case Num(n) => Cast([IntToString(n)])
    case Flag(b) => Cast([if b then "true" else "false"])
  }

  /** The number whose decimal form `String(n)` writes is read back by the
      cast to a Number path. */
  lemma {:induction false} DigitsRoundTrip(n: nat)
    ensures AllDigits(NatToString(n)) && DigitsValue(NatToString(n)) == n
    decreases n
  {
    var s := NatToString(n);
    if n >= 10 {
      DigitsRoundTrip(n / 10);
      assert s[..|s| - 1] == NatToString(n / 10);
    }
  }

  lemma NumberStringRoundTrip(n: int)
    ensures CastNumber(Str(IntToString(n))) == Cast(n)
  {
    var s := IntToString(n);
    TrimUnpadded(s);
    if n >= 0 {
      DigitsRoundTrip(n);
    } else {
      NegativeParses(-n);
    }
  }

  /** A minus sign and a run of digits read back as the negated number. */
  lemma NegativeParses(m: nat)
    requires m > 0
    ensures ParseInteger("-" + NatToString(m)) == Cast(-(m as int))
  {
    DigitsRoundTrip(m);
    var t := "-" + NatToString(m);
    assert t[1..] == NatToString(m);
    assert !AllDigits(t) by {
      assert t[0] == '-';
    }
  }

  /** The paths `updateCampaign` may assign. */
  datatype Field = Title | Description | Goal | Image | Documents | StatusPath | Urgency | Duration

  function FieldName(f: Field): string
  {
    match f
    case Title => "title"
    case Description => "description"
    case Goal => "goal"
    case Image => "image"
    case Documents => "documents"
    case StatusPath => "status"
    case Urgency => "isUrgent"
    case Duration => "duration"
  }

  /** The whitelist, in the handler's order. */
  const AllowedUpdates: seq<Field> := [Title, Description, Goal, Image, Documents, StatusPath, Urgency, Duration]

  /** The whitelist names every path of `Field` once. */
  lemma WhitelistComplete()
    ensures forall f: Field :: f in AllowedUpdates
    ensures forall i, j | 0 <= i < j < |AllowedUpdates| :: AllowedUpdates[i] != AllowedUpdates[j]
  {
    forall f: Field ensures f in AllowedUpdates {
      match f
      case Title => assert AllowedUpdates[0] == f;
      case Description => assert AllowedUpdates[1] == f;
      case Goal => assert AllowedUpdates[2] == f;
      case Image => assert AllowedUpdates[3] == f;
      case Documents => assert AllowedUpdates[4] == f;
      case StatusPath => assert AllowedUpdates[5] == f;
      case Urgency => assert AllowedUpdates[6] == f;
      case Duration => assert AllowedUpdates[7] == f;
    }
  }

  /** `req.body[name] !== undefined`: the value the body gives for a path. */
  function Given(body: map<string, Value>, f: Field): Option<Value>
  {
    if FieldName(f) in body then Some(body[FieldName(f)]) else None
  }

  /** What a whitelisted path holds once Mongoose has cast a value for it. */
  datatype Stored = Text(text: string) | Number(number: int) | Texts(texts: seq<string>) | State(state: Status) | Bool(flag: bool)

  /** The kind of value each path holds. */
  predicate Fits(f: Field, w: Stored)
  {
    match f
    case Title => w.Text?
    case Description => w.Text?
    case Goal => w.Number?
    case Image => w.Text?
    case Documents => w.Texts?
    case StatusPath => w.State?
    case Urgency => w.Bool?
    case Duration => w.Number?
  }

  /** `campaign[f] = v` as the path's cast and setter see it: what the path
      will hold, or `None` when the next `save()` must fail because the value
      could not be cast, a required path became null, or the status is not
      one of the enum's values. Paths with `trim` are trimmed; a null image
      or document list is stored as none. */
  function Accept(f: Field, v: Value): (r: Option<Stored>)
    ensures r.Some? ==> Fits(f, r.value)
  {
    match f
    case Title =>
      (match CastString(v) case Cast(s) => Some(Text(Trim(s))) case _ => None)
    case Description =>
      (match CastString(v) case Cast(s) => Some(Text(Trim(s))) case _ => None)
    case Goal =>
      (match CastNumber(v) case Cast(n) => Some(Number(n)) case _ => None)
    case Image =>
      (match CastString(v) case Cast(s) => Some(Text(s)) case Nothing => Some(Text("")) case Invalid => None)
    case Documents =>
      (match CastStrings(v) case Cast(xs) => Some(Texts(xs)) case Nothing => Some(Texts([])) case Invalid => None)
    case StatusPath =>
      (match CastString(v)
       case Cast(s) => (match ParseStatus(s) case Some(st) => Some(State(st)) case None => None)
       case _ => None)
    case Urgency =>
      (match CastBoolean(v) case Cast(b) => Some(Bool(b)) case Nothing => Some(Bool(false)) case Invalid => None)
    case Duration =>
      (match CastNumber(v) case Cast(n) => Some(Number(n)) case _ => None)
  }

  /** The document with path f set to w. */
  function Write(c: Campaign, f: Field, w: Stored): Campaign
    requires Fits(f, w)
  {
    match f
    case Title => c.(title := w.text)
    case Description => c.(description := w.text)
    case Goal => c.(goal := w.number)
    case Image => c.(image := w.text)
    case Documents => c.(documents := w.texts)
    case StatusPath => c.(status := w.state)
    case Urgency => c.(isUrgent := w.flag)
    case Duration => c.(duration := w.number)
  }

  /** What path f of the document holds. */
  function Read(c: Campaign, f: Field): (r: Stored)
    ensures Fits(f, r)
  {
    match f
    case Title => Text(c.title)
    case Description => Text(c.description)
    case Goal => Number(c.goal)
    case Image => Text(c.image)
    case Documents => Texts(c.documents)
    case StatusPath => State(c.status)
    case Urgency => Bool(c.isUrgent)
    case Duration => Number(c.duration)
  }

  /** Every path outside the whitelist is the same in c and d: the id, the
      category, the money and donor counters, the dates (the end date
      included), the creator and the approval fields. */
  predicate OutsideWhitelistKept(c: Campaign, d: Campaign)
  {
    && c.id == d.id && c.category == d.category
    && c.collected == d.collected && c.donorCount == d.donorCount
    && c.startDate == d.startDate && c.endDate == d.endDate && c.createdAt == d.createdAt
    && c.creatorName == d.creatorName && c.creatorEmail == d.creatorEmail
    && c.isFeatured == d.isFeatured && c.rejectionReason == d.rejectionReason
    && c.approvedBy == d.approvedBy && c.approvedAt == d.approvedAt
  }

  /** A written path reads back what was written, and no other path
      changes. */
  lemma WriteThenRead(c: Campaign, f: Field, w: Stored)
    requires Fits(f, w)
    ensures Read(Write(c, f, w), f) == w
    ensures OutsideWhitelistKept(c, Write(c, f, w))
    ensures forall g | g != f :: Read(Write(c, f, w), g) == Read(c, g)
  {
  }

  /** Writing back what a path holds changes nothing. */
  lemma ReadThenWrite(c: Campaign, f: Field)
    ensures Write(c, f, Read(c, f)) == c
  {
  }

  /** The forEach over `fields`: each field the body gives is assigned in
      turn; once an assignment has failed the save will fail (`None`). */
  function ApplyUpdates(c: Campaign, body: map<string, Value>, fields: seq<Field>): Option<Campaign>
    decreases |fields|
  {
    if fields == [] then Some(c)
    else
      var prior := ApplyUpdates(c, body, fields[..|fields| - 1]);
      var f := fields[|fields| - 1];
      match prior
      case None => None
      case Some(p) =>
        match Given(body, f)
        case None => prior
        case Some(v) =>
          match Accept(f, v)
          case None => None
          case Some(w) => Some(Write(p, f, w))
  }

  predicate NoRepeats(fields: seq<Field>)
  {
    forall i, j | 0 <= i < j < |fields| :: fields[i] != fields[j]
  }

  /** After the forEach over distinct fields, a path outside the whitelist is
      unchanged, a listed path the body leaves out keeps its value, and a
      listed path the body gives holds that value as cast for it. */
  lemma {:induction false} ApplyUpdatesFields(c: Campaign, body: map<string, Value>, fields: seq<Field>)
    requires NoRepeats(fields)
    requires ApplyUpdates(c, body, fields).Some?
    ensures var d := ApplyUpdates(c, body, fields).value;
      && OutsideWhitelistKept(c, d)
      && (forall f | !(f in fields && Given(body, f).Some?) :: Read(d, f) == Read(c, f))
      && (forall f | f in fields && Given(body, f).Some? :: Accept(f, Given(body, f).value) == Some(Read(d, f)))
    decreases |fields|
  {
    if fields != [] {
      var init := fields[..|fields| - 1];
      var g := fields[|fields| - 1];
      assert NoRepeats(init);
      ApplyUpdatesFields(c, body, init);
      var p := ApplyUpdates(c, body, init).value;
      assert forall f | f in fields :: f in init || f == g;
      assert g !in init by {
        forall k | 0 <= k < |init| ensures init[k] != g {
          assert fields[k] == init[k];
        }
      }
      if Given(body, g).Some? {
        WriteThenRead(p, g, Accept(g, Given(body, g).value).value);
      }
    }
  }

  /** The forEach fails exactly when one of the fields the body gives is
      refused. */
  lemma {:induction false} ApplyUpdatesRefuses(c: Campaign, body: map<string, Value>, fields: seq<Field>)
    ensures ApplyUpdates(c, body, fields).None? <==>
      exists f | f in fields :: Given(body, f).Some? && Accept(f, Given(body, f).value).None?
    decreases |fields|
  {
    if fields != [] {
      ApplyUpdatesRefuses(c, body, fields[..|fields| - 1]);
      assert forall f | f in fields :: f in fields[..|fields| - 1] || f == fields[|fields| - 1];
    }
  }

  /** A stored value as JSON shows it. */
  function Json(w: Stored): Value
  {
    match w
    case Text(s) => Str(s)
    case Number(n) => Num(n)
    case Texts(xs) => Strs(xs)
    case State(st) => Str(StatusName(st))
    case Bool(b) => Flag(b)
  }

  /** Casting a path's value as JSON shows it gives that value back (a
      title or description being already trimmed). */
  lemma JsonRoundTrip(c: Campaign, f: Field)
    requires Trim(c.title) == c.title && Trim(c.description) == c.description
    ensures Accept(f, Json(Read(c, f))) == Some(Read(c, f))
  {
    if f == StatusPath {
      ParseStatusExact(StatusName(c.status), c.status);
    }
  }

  /** No two paths share a name. */
  lemma FieldNamesDistinct(f: Field)
    ensures forall g: Field | FieldName(g) == FieldName(f) :: g == f
  {
    forall g: Field | FieldName(g) == FieldName(f) ensures g == f {
      assert FieldName(g)[0] == FieldName(f)[0] && |FieldName(g)| == |FieldName(f)|;
    }
  }

  /** The body that repeats the campaign's own values. */
  function OwnValues(c: Campaign): map<string, Value>
  {
    map f | f in AllowedUpdates :: FieldName(f) := Json(Read(c, f))
  }

  lemma OwnValuesGiven(c: Campaign, f: Field)
    ensures Given(OwnValues(c), f) == Some(Json(Read(c, f)))
  {
    WhitelistComplete();
    FieldNamesDistinct(f);
    var m := OwnValues(c);
    assert FieldName(f) in m;
    assert m[FieldName(f)] == Json(Read(c, f));
  }

  /** Sending back a campaign's own values changes nothing. */
  lemma {:induction false} OwnValuesChangeNothing(c: Campaign, fields: seq<Field>)
    requires Trim(c.title) == c.title && Trim(c.description) == c.description
    ensures ApplyUpdates(c, OwnValues(c), fields) == Some(c)
    decreases |fields|
  {
    if fields != [] {
      OwnValuesChangeNothing(c, fields[..|fields| - 1]);
      var f := fields[|fields| - 1];
      OwnValuesGiven(c, f);
      JsonRoundTrip(c, f);
      ReadThenWrite(c, f);
    }
  }

  /** `updateCampaign` as a function of the campaigns: 404 for an unknown
      id; 500, with nothing stored, when an assignment or the save fails;
      otherwise the updated campaign, saved (the status hook runs; the end
      date is not recomputed). */
  function UpdateSpec(cs: seq<Campaign>, id: nat, body: map<string, Value>, now: int): (Reply<Campaign>, seq<Campaign>)
  {
    match IndexOf(cs, id)
    case None => (Fail(404, NotFound), cs)
    case Some(i) =>
      match ApplyUpdates(cs[i], body, AllowedUpdates)
      case None => (Fail(500, UpdateError), cs)
      case Some(d) =>
        match SaveOutcome(d, false, now)
        case None => (Fail(500, UpdateError), cs)
        case Some(v) => (Ok(200, v), cs[i := v])
  }

  /** A failed update changes nothing; it is a 404 exactly when the id is
      unknown, and a 500 whenever a field the body gives is refused. */
  lemma UpdateRefused(cs: seq<Campaign>, id: nat, body: map<string, Value>, now: int)
    ensures var (reply, cs') := UpdateSpec(cs, id, body, now);
      && (reply.Fail? ==> cs' == cs)
      && (reply == Fail(404, NotFound) <==> IndexOf(cs, id).None?)
      && (IndexOf(cs, id).Some? &&
          (exists f: Field :: Given(body, f).Some? && Accept(f, Given(body, f).value).None?)
          ==> reply == Fail(500, UpdateError))
  {
    var i := IndexOf(cs, id);
    if i.Some? {
      ApplyUpdatesRefuses(cs[i.value], body, AllowedUpdates);
      WhitelistComplete();
    }
  }

  /** A successful update replaces that one campaign by the document the
      whitelisted assignments produce, after the status hook; every path
      outside the whitelist, the end date included, is unchanged, a
      whitelisted field the body leaves out keeps its value, and one it gives
      holds the cast value. */
  lemma UpdateChangesOnlyWhitelist(cs: seq<Campaign>, id: nat, body: map<string, Value>, now: int)
    requires UpdateSpec(cs, id, body, now).0.Ok?
    ensures IndexOf(cs, id).Some? && ApplyUpdates(cs[IndexOf(cs, id).value], body, AllowedUpdates).Some?
    ensures var i := IndexOf(cs, id).value;
      var d := ApplyUpdates(cs[i], body, AllowedUpdates).value;
      var (reply, cs') := UpdateSpec(cs, id, body, now);
      && reply.code == 200 && cs' == cs[i := reply.data]
      && reply.data == StatusOnSave(d, now) && SchemaValid(reply.data)
      && OutsideWhitelistKept(cs[i], reply.data)
      && (forall f | Given(body, f).None? :: Read(d, f) == Read(cs[i], f))
      && (forall f | Given(body, f).Some? :: Accept(f, Given(body, f).value) == Some(Read(d, f)))
  {
    var i := IndexOf(cs, id).value;
    WhitelistComplete();
    ApplyUpdatesFields(cs[i], body, AllowedUpdates);
    var d := ApplyUpdates(cs[i], body, AllowedUpdates).value;
    StatusHookRules(d, now);
  }

  /** Updating keeps the store valid and the ledger balanced: ids and the
      money counters are outside the whitelist. */
  lemma UpdateKeepsLedger(cs: seq<Campaign>, ds: seq<Donation>, nextId: nat, id: nat, body: map<string, Value>, now: int)
    requires StoreValid(cs, ds, nextId) && Reconciled(cs, ds)
    ensures var cs' := UpdateSpec(cs, id, body, now).1;
      StoreValid(cs', ds, nextId) && Reconciled(cs', ds)
  {
    var (reply, cs') := UpdateSpec(cs, id, body, now);
    if reply.Ok? {
      UpdateChangesOnlyWhitelist(cs, id, body, now);
      var i := IndexOf(cs, id).value;
      assert forall j | 0 <= j < |cs'| :: cs'[j].id == cs[j].id;
    } else {
      UpdateRefused(cs, id, body, now);
    }
  }

  /** `updateCampaign`: load the campaign, assign each whitelisted field the
      body defines, then save it. */
  method UpdateCampaign(db: Database, id: nat, body: map<string, Value>, now: int) returns (reply: Reply<Campaign>)
    modifies db
    ensures (reply, db.campaigns) == UpdateSpec(old(db.campaigns), id, body, now)
    ensures db.donations == old(db.donations) && db.admins == old(db.admins) && db.nextId == old(db.nextId)
    ensures old(db.Valid() && Reconciled(db.campaigns, db.donations)) ==> db.Valid() && Reconciled(db.campaigns, db.donations)
  {
    if db.Valid() && Reconciled(db.campaigns, db.donations) {
      UpdateKeepsLedger(db.campaigns, db.donations, db.nextId, id, body, now);
    }
    var found := IndexOf(db.campaigns, id);
    if found.None? {
      return Fail(404, NotFound);
    }
    var i := found.value;
    var campaign := db.campaigns[i];
    var invalid := false;
    for k := 0 to |AllowedUpdates|
      invariant invalid ==> ApplyUpdates(db.campaigns[i], body, AllowedUpdates[..k]).None?
      invariant !invalid ==> ApplyUpdates(db.campaigns[i], body, AllowedUpdates[..k]) == Some(campaign)
    {
      var field := AllowedUpdates[k];
      assert AllowedUpdates[..k + 1][..k] == AllowedUpdates[..k];
      var given := Given(body, field);
      if given.Some? {
        var stored := Accept(field, given.value);
        if stored.None? {
          invalid := true;
        } else {
          campaign := Write(campaign, field, stored.value);
        }
      }
    }
    assert AllowedUpdates[..|AllowedUpdates|] == AllowedUpdates;
    if invalid {
      return Fail(500, UpdateError);
    }
    var doc := new CampaignDoc(campaign, false);
    ResaveEitherOrder(campaign, now);
    var saved := doc.Save(now, true);
    if saved.None? {
      return Fail(500, UpdateError);
    }
    db.campaigns := db.campaigns[i := saved.value];
    reply := Ok(200, saved.value);
  }

  const DeleteError := "Error deleting campaign"

  /** `deleteCampaign` as a function of the campaigns: 404 for an unknown
      id, otherwise the campaign is removed; its donations are not looked
      at. */
  function DeleteSpec(cs: seq<Campaign>, id: nat): (Reply<()>, seq<Campaign>)
  {
    match IndexOf(cs, id)
    case None => (Fail(404, NotFound), cs)
    case Some(i) => (Ok(200, ()), cs[..i] + cs[i + 1..])
  }

  /** Deleting succeeds exactly when a campaign has that id, whatever
      donations it has, and removes one campaign; a 404 changes nothing. */
  lemma DeleteOutcome(cs: seq<Campaign>, id: nat)
    requires DistinctIds(cs)
    ensures var (reply, cs') := DeleteSpec(cs, id);
      && (reply.Ok? <==> exists i | 0 <= i < |cs| :: cs[i].id == id)
      && (reply.Fail? ==> reply == Fail(404, NotFound) && cs' == cs)
      && (reply.Ok? ==> reply.code == 200 && |cs'| == |cs| - 1)
  {
  }

  /** What remains after deleting is every other campaign. */
  lemma DeleteKeepsOthers(cs: seq<Campaign>, id: nat)
    requires DistinctIds(cs)
    ensures var cs' := DeleteSpec(cs, id).1;
      forall c :: c in cs' <==> c in cs && c.id != id
  {
    var cs' := DeleteSpec(cs, id).1;
    match IndexOf(cs, id)
    case None =>
    case Some(i) =>
      forall c ensures c in cs' <==> c in cs && c.id != id {
        if c in cs && c.id != id {
          var j :| 0 <= j < |cs| && cs[j] == c;
          if j < i {
            assert cs'[j] == c;
          } else {
            assert cs'[j - 1] == c;
          }
        }
        if c in cs' {
          var j :| 0 <= j < |cs'| && cs'[j] == c;
          if j < i {
            assert c == cs[j];
          } else {
            assert c == cs[j + 1];
          }
        }
      }
  }

  /** Deleting keeps the store valid and the ledger balanced for the
      campaigns that remain; donations to the deleted campaign stay
      recorded. */
  lemma DeleteKeepsLedger(cs: seq<Campaign>, ds: seq<Donation>, nextId: nat, id: nat)
    requires StoreValid(cs, ds, nextId) && Reconciled(cs, ds)
    ensures var cs' := DeleteSpec(cs, id).1;
      StoreValid(cs', ds, nextId) && Reconciled(cs', ds)
  {
    match IndexOf(cs, id)
    case None =>
    case Some(i) =>
      var cs' := cs[..i] + cs[i + 1..];
      assert forall j | 0 <= j < |cs'| :: cs'[j] == cs[if j < i then j else j + 1];
  }

  /** `deleteCampaign`. */
  method DeleteCampaign(db: Database, id: nat) returns (reply: Reply<()>)
    modifies db
    ensures (reply, db.campaigns) == DeleteSpec(old(db.campaigns), id)
    ensures db.donations == old(db.donations) && db.admins == old(db.admins) && db.nextId == old(db.nextId)
    ensures old(db.Valid() && Reconciled(db.campaigns, db.donations)) ==> db.Valid() && Reconciled(db.campaigns, db.donations)
  {
    if db.Valid() && Reconciled(db.campaigns, db.donations) {
      DeleteKeepsLedger(db.campaigns, db.donations, db.nextId, id);
    }
    var found := IndexOf(db.campaigns, id);
    if found.None? {
      return Fail(404, NotFound);
    }
    var i := found.value;
    db.campaigns := db.campaigns[..i] + db.campaigns[i + 1..];
    reply := Ok(200, ());
  }

  /** The number of campaigns of a category in a group. */
  datatype CategoryCount = CategoryCount(category: Category, count: nat)

  /** The payload of `GET /api/campaigns/stats/overview`. */
  datatype Overview = Overview(
    totalCampaigns: nat,
    totalRaised: int,
    categoryCounts: seq<CategoryCount>,
    urgentCampaigns: seq<Campaign>)

  predicate IsActive(c: Campaign) { c.status == Active }

  predicate UrgentActive(c: Campaign) { c.isUrgent && c.status == Active }

  function Raised(c: Campaign): int { c.collected }

  function ByCount(g: CategoryCount): SortKey { SortKey(g.count, 0) }

  predicate NonEmptyGroup(g: CategoryCount) { g.count > 0 }

  /** The number of active campaigns of category k. */
  function ActiveIn(cs: seq<Campaign>, k: Category): nat
    decreases |cs|
  {
    if cs == [] then 0
    else ActiveIn(cs[..|cs| - 1], k) + (if IsActive(cs[|cs| - 1]) && cs[|cs| - 1].category == k then 1 else 0)
  }

  /** Every active campaign is in exactly one category. */
  lemma {:induction false} CategoriesPartitionActive(cs: seq<Campaign>)
    ensures ActiveIn(cs, Schools) + ActiveIn(cs, Children) + ActiveIn(cs, Health) + ActiveIn(cs, Other) == Count(cs, IsActive)
    decreases |cs|
  {
    if cs != [] {
      CategoriesPartitionActive(cs[..|cs| - 1]);
    }
  }

  /** The `$group` by category of the active campaigns, one group per
      category that has any, sorted by count, largest first. */
  function CategoryCounts(cs: seq<Campaign>): seq<CategoryCount>
  {
    SortDesc(Filter(AllGroups(cs), NonEmptyGroup), ByCount)
  }

  /** The five newest urgent active campaigns. */
  function UrgentCampaigns(cs: seq<Campaign>): seq<Campaign>
  {
    TopByKey(Filter(cs, UrgentActive), ByStart, 5)
  }

  /** `getCampaignStats`: the number of active campaigns, the sum of their
      `collected` (0 when there are none), the category groups and the five
      newest urgent active campaigns. */
  function CampaignStats(cs: seq<Campaign>): Overview
  {
    Overview(Count(cs, IsActive), Sum(Filter(cs, IsActive), Raised), CategoryCounts(cs), UrgentCampaigns(cs))
  }

  /** The totals: the campaign count is the number of active campaigns and
      the category groups add up to it; the amount raised is the sum over
      active campaigns only, 0 when there are none, and never negative. */
  lemma StatsTotals(cs: seq<Campaign>)
    ensures var r := CampaignStats(cs);
      && r.totalCampaigns == |Filter(cs, IsActive)|
      && r.totalCampaigns == ActiveIn(cs, Schools) + ActiveIn(cs, Children) + ActiveIn(cs, Health) + ActiveIn(cs, Other)
      && (r.totalCampaigns == 0 ==> r.totalRaised == 0)
      && ((forall i | 0 <= i < |cs| :: cs[i].collected >= 0) ==> r.totalRaised >= 0)
  {
    CountIsFilterLength(cs, IsActive);
    CategoriesPartitionActive(cs);
    var active := Filter(cs, IsActive);
    if forall i | 0 <= i < |cs| :: cs[i].collected >= 0 {
      forall i | 0 <= i < |active| ensures Raised(active[i]) >= 0 {
        assert active[i] in active;
      }
      SumNonNegative(active, Raised);
    }
  }

  /** The four groups before the empty ones are dropped. */
  function AllGroups(cs: seq<Campaign>): (groups: seq<CategoryCount>)
    ensures forall g | g in groups :: g.count == ActiveIn(cs, g.category)
  {
    [CategoryCount(Schools, ActiveIn(cs, Schools)), CategoryCount(Children, ActiveIn(cs, Children)),
     CategoryCount(Health, ActiveIn(cs, Health)), CategoryCount(Other, ActiveIn(cs, Other))]
  }

  /** The category groups are sorted by count, largest first, and each
      holds the number of active campaigns of its category. */
  lemma StatsGroupsExact(cs: seq<Campaign>)
    ensures var groups := CategoryCounts(cs);
      && SortedDesc(groups, ByCount)
      && forall g | g in groups :: g.count == ActiveIn(cs, g.category) && g.count > 0
  {
    var kept := Filter(AllGroups(cs), NonEmptyGroup);
    forall g | g in SortDesc(kept, ByCount) ensures g.count == ActiveIn(cs, g.category) && g.count > 0 {
      assert g in multiset(SortDesc(kept, ByCount));
      assert g in kept;
      assert g in AllGroups(cs) && NonEmptyGroup(g);
    }
  }

  /** Every category that has an active campaign has its group. */
  lemma StatsGroupsComplete(cs: seq<Campaign>, k: Category)
    requires ActiveIn(cs, k) > 0
    ensures CategoryCount(k, ActiveIn(cs, k)) in CategoryCounts(cs)
  {
    var groups := AllGroups(cs);
    var own := CategoryCount(k, ActiveIn(cs, k));
    assert own in groups by {
      match k
      case Schools => assert groups[0] == own;
      case Children => assert groups[1] == own;
      case Health => assert groups[2] == own;
      case Other => assert groups[3] == own;
    }
    FilterKeeps(groups, NonEmptyGroup, own);
    var kept := Filter(groups, NonEmptyGroup);
    assert own in multiset(SortDesc(kept, ByCount));
  }

  /** The urgent list holds min(5, #urgent active campaigns) urgent
      active campaigns, newest first. */
  lemma StatsUrgent(cs: seq<Campaign>)
    ensures var r := UrgentCampaigns(cs);
      && |r| == Min(5, |Filter(cs, UrgentActive)|) && SortedDesc(r, ByStart)
      && forall c | c in r :: c in cs && c.isUrgent && c.status == Active
  {
    var urgent := Filter(cs, UrgentActive);
    TopByKeyProperties(urgent, ByStart, 5);
    forall c | c in UrgentCampaigns(cs) ensures c in cs && c.isUrgent && c.status == Active {
      assert c in multiset(urgent);
    }
  }

  /** An urgent active campaign missing from the urgent list was left out
      because five are listed, and started no later than the last of
      them. */
  lemma StatsUrgentComplete(cs: seq<Campaign>)
    ensures var r := UrgentCampaigns(cs);
      forall c | c in cs && UrgentActive(c) && c !in r :: |r| == 5 && r[4].startDate >= c.startDate
  {
    var urgent := Filter(cs, UrgentActive);
    var r := UrgentCampaigns(cs);
    forall c | c in cs && UrgentActive(c) && c !in r ensures |r| == 5 && r[4].startDate >= c.startDate {
      FilterKeeps(cs, UrgentActive, c);
      TopByKeyLeftOut(urgent, ByStart, 5, c);
    }
  }
}
