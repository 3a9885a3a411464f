/** The admin endpoints: `adminLogin`, `approveCampaign`, `rejectCampaign`,
    `createDefaultAdmin`, and the admin listings `getAllDonors` and
    `getAllCampaigns`. Password checking, hashing and token signing belong
    to code outside this model and are passed in as functions. */
module AdminController {
  import opened Basics
  import opened Text
  import opened Sorting
  import opened Paging
  import opened CampaignModel
  import opened DonorModel
  import opened Store
  import CampaignController
  import DonorController

  const ValidationFailed := "Validation failed"
  const InvalidCredentials := "Invalid email or password"
  const Deactivated := "Account is deactivated. Please contact support."
  const LoginError := "Error during login"

  /** The `data` of a successful login: the signed token and the admin's
      id, email, name and role. */
  datatype LoginData = LoginData(token: string, id: nat, email: string, name: string, role: Role)

  /** `Admin.findOne({ email })`: the first admin with that email. */
  function FindAdmin(admins: seq<Admin>, email: string): (r: Option<nat>)
    ensures r.Some? ==> r.value < |admins| && admins[r.value].email == email
    ensures r.Some? ==> forall k | 0 <= k < r.value :: admins[k].email != email
    ensures r.None? ==> forall k | 0 <= k < |admins| :: admins[k].email != email
  {
    if admins == [] then None
    else if admins[0].email == email then Some(0)
    else
      var r := FindAdmin(admins[1..], email);
      if r.None? then None else Some(r.value + 1)
  }

  /** `adminLogin` as a function of the admins collection: the answer and the
      new admins. `invalid` is the express-validator verdict, `matches` the
      model's `comparePassword`, and `sign` the token generator, `None` when
      the handler has none to call. The checks run in the handler's order:
      existence, then activity, then the password; on success `lastLogin` is
      stamped before the token is made. */
  function LoginWith(admins: seq<Admin>, invalid: bool, email: string, password: string,
                     matches: (string, string) -> bool, sign: Option<nat -> string>, now: int)
    : (Reply<LoginData>, seq<Admin>)
  {
    if invalid then (Fail(400, ValidationFailed), admins)
    else
      match FindAdmin(admins, email)
      case None => (Fail(401, InvalidCredentials), admins)
      case Some(i) =>
        var a := admins[i];
        if !a.isActive then (Fail(401, Deactivated), admins)
        else if !matches(password, a.password) then (Fail(401, InvalidCredentials), admins)
        else
          var stamped := admins[i := a.(lastLogin := Some(now))];
          match sign
          case None => (Fail(500, LoginError), stamped)
          case Some(g) => (Ok(200, LoginData(g(a.id), a.id, a.email, a.name, a.role)), stamped)
  }

  /** `adminLogin` as written: `generateToken` is imported from the auth
      middleware, which does not export it, so the call throws. */
  function LoginAsWritten(admins: seq<Admin>, invalid: bool, email: string, password: string,
                          matches: (string, string) -> bool, now: int)
    : (Reply<LoginData>, seq<Admin>)
  {
    LoginWith(admins, invalid, email, password, matches, None, now)
  }

  /** `adminLogin` with a token generator `sign` in scope. */
  function Login(admins: seq<Admin>, invalid: bool, email: string, password: string,
                 matches: (string, string) -> bool, sign: nat -> string, now: int)
    : (Reply<LoginData>, seq<Admin>)
  {
    LoginWith(admins, invalid, email, password, matches, Some(sign), now)
  }

  /** The answer does not tell an unknown email from a wrong password: both
      get the same 401 and change nothing. */
  lemma LoginHidesUnknownEmail(admins: seq<Admin>, email: string, password: string,
                               matches: (string, string) -> bool, sign: Option<nat -> string>, now: int)
    ensures var (reply, admins') := LoginWith(admins, false, email, password, matches, sign, now);
      (FindAdmin(admins, email).None? ||
       (admins[FindAdmin(admins, email).value].isActive && !matches(password, admins[FindAdmin(admins, email).value].password)))
      ==> reply == Fail(401, InvalidCredentials) && admins' == admins
  {
  }

  /** A deactivated admin is refused before the password is looked at: the
      answer is the same for every password, and nothing changes. */
  lemma LoginInactiveFirst(admins: seq<Admin>, email: string, p1: string, p2: string,
                           matches: (string, string) -> bool, sign: Option<nat -> string>, now: int)
    requires FindAdmin(admins, email).Some? && !admins[FindAdmin(admins, email).value].isActive
    ensures LoginWith(admins, false, email, p1, matches, sign, now) == (Fail(401, Deactivated), admins)
    ensures LoginWith(admins, false, email, p1, matches, sign, now) == LoginWith(admins, false, email, p2, matches, sign, now)
  {
  }

  /** A login succeeds exactly when the request is valid, the email belongs
      to an active admin and the password matches; the answer then carries
      that admin's token, id, email, name and role (no password), and the
      only change is that admin's `lastLogin`, now. Every refusal changes
      nothing. */
  lemma LoginSucceeds(admins: seq<Admin>, invalid: bool, email: string, password: string,
                      matches: (string, string) -> bool, sign: nat -> string, now: int)
    ensures var (reply, admins') := Login(admins, invalid, email, password, matches, sign, now);
      var i := FindAdmin(admins, email);
      && (reply.Ok? <==> !invalid && i.Some? && admins[i.value].isActive && matches(password, admins[i.value].password))
      && (reply.Fail? ==> admins' == admins && reply.code in {400, 401})
      && (reply.Ok? ==>
            var a := admins[i.value];
            && reply.code == 200
            && reply.data == LoginData(sign(a.id), a.id, a.email, a.name, a.role)
            && |admins'| == |admins|
            && admins'[i.value] == a.(lastLogin := Some(now))
            && forall k | 0 <= k < |admins| && k != i.value :: admins'[k] == admins[k])
  {
  }

  /** As written, no login ever succeeds: the right credentials get a 500,
      after `lastLogin` has already been stamped. */
  lemma LoginAsWrittenFails(admins: seq<Admin>, invalid: bool, email: string, password: string,
                            matches: (string, string) -> bool, now: int)
    ensures var (reply, admins') := LoginAsWritten(admins, invalid, email, password, matches, now);
      var i := FindAdmin(admins, email);
      && reply.Fail?
      && (reply == Fail(500, LoginError) <==> !invalid && i.Some? && admins[i.value].isActive && matches(password, admins[i.value].password))
      && (reply.code == 500 ==> admins' == admins[i.value := admins[i.value].(lastLogin := Some(now))])
  {
  }

  /** `adminLogin` on the store. */
  method AdminLogin(db: Database, invalid: bool, email: string, password: string,
                    matches: (string, string) -> bool, sign: Option<nat -> string>, now: int)
    returns (reply: Reply<LoginData>)
    modifies db
    ensures (reply, db.admins) == LoginWith(old(db.admins), invalid, email, password, matches, sign, now)
    ensures db.campaigns == old(db.campaigns) && db.donations == old(db.donations) && db.nextId == old(db.nextId)
  {
    if invalid {
      return Fail(400, ValidationFailed);
    }
    var found := FindAdmin(db.admins, email);
    if found.None? {
      return Fail(401, InvalidCredentials);
    }
    var admin := db.admins[found.value];
    if !admin.isActive {
      return Fail(401, Deactivated);
    }
    if !matches(password, admin.password) {
      return Fail(401, InvalidCredentials);
    }
    db.admins := db.admins[found.value := admin.(lastLogin := Some(now))];
    if sign.None? {
      return Fail(500, LoginError);
    }
    reply := Ok(200, LoginData(sign.value(admin.id), admin.id, admin.email, admin.name, admin.role));
  }

  const ApproveError := "Error approving campaign"
  const RejectError := "Error rejecting campaign"
  const DefaultRejection := "Campaign does not meet our guidelines"

  /** The assignments of `approveCampaign`. */
  function WithApproval(c: Campaign, adminId: nat, now: int): Campaign
  {
    c.(status := Active, approvedBy := Some(adminId), approvedAt := Some(now))
  }

  /** The assignments of `rejectCampaign`: `reason || default`. */
  function WithRejection(c: Campaign, reason: Option<string>): Campaign
  {
    c.(status := Rejected, rejectionReason := Some(CampaignController.TextOr(reason, DefaultRejection)))
  }

  /** Load the campaign with that id (404 if none), assign, and save it
      (500 if the save fails). */
  function Transition(cs: seq<Campaign>, id: nat, assign: Campaign -> Campaign, now: int, error: string)
    : (Reply<Campaign>, seq<Campaign>)
  {
    match IndexOf(cs, id)
    case None => (Fail(404, CampaignController.NotFound), cs)
    case Some(i) =>
      match SaveOutcome(assign(cs[i]), false, now)
      case None => (Fail(500, error), cs)
      case Some(v) => (Ok(200, v), cs[i := v])
  }

  /** `approveCampaign` by the admin with id `adminId`. */
  function ApproveSpec(cs: seq<Campaign>, id: nat, adminId: nat, now: int): (Reply<Campaign>, seq<Campaign>)
  {
    Transition(cs, id, c => WithApproval(c, adminId, now), now, ApproveError)
  }

  /** `rejectCampaign` with the body's `reason`. */
  function RejectSpec(cs: seq<Campaign>, id: nat, reason: Option<string>, now: int): (Reply<Campaign>, seq<Campaign>)
  {
    Transition(cs, id, c => WithRejection(c, reason), now, RejectError)
  }

  /** Approving a stored campaign always succeeds, whatever its status:
      there is no check that it is pending. It records the approver and the
      time, changes nothing else but the status, and the status hook then
      settles it: it stays active exactly when it is neither funded nor
      expired. An unknown id is a 404 that changes nothing. */
  lemma ApproveFromAnyStatus(cs: seq<Campaign>, id: nat, adminId: nat, now: int)
    requires forall k | 0 <= k < |cs| :: SchemaValid(cs[k])
    ensures var (reply, cs') := ApproveSpec(cs, id, adminId, now);
      && (reply.Fail? <==> IndexOf(cs, id).None?)
      && (reply.Fail? ==> reply == Fail(404, CampaignController.NotFound) && cs' == cs)
      && (reply.Ok? ==>
            var i := IndexOf(cs, id).value;
            var c := cs[i];
            && reply.code == 200 && cs' == cs[i := reply.data]
            && reply.data == c.(status := reply.data.status, approvedBy := Some(adminId), approvedAt := Some(now))
            && (reply.data.status == Active <==> c.collected < c.goal && !IsExpired(c, now))
            && (reply.data.status != Active ==> reply.data.status == (if c.collected >= c.goal then Completed else Cancelled)))
  {
    match IndexOf(cs, id)
    case None =>
    case Some(i) =>
      var a := WithApproval(cs[i], adminId, now);
      ResaveKeepsValid(a, now);
      StatusHookRules(a, now);
  }

  /** Rejecting a stored campaign always succeeds, whatever its status, even
      a completed one that holds donations; it records the given reason or
      the default one, and changes nothing else but the status, which the
      status hook leaves alone. */
  lemma RejectFromAnyStatus(cs: seq<Campaign>, id: nat, reason: Option<string>, now: int)
    requires forall k | 0 <= k < |cs| :: SchemaValid(cs[k])
    ensures var (reply, cs') := RejectSpec(cs, id, reason, now);
      && (reply.Fail? <==> IndexOf(cs, id).None?)
      && (reply.Fail? ==> reply == Fail(404, CampaignController.NotFound) && cs' == cs)
      && (reply.Ok? ==>
            var i := IndexOf(cs, id).value;
            && reply.code == 200 && cs' == cs[i := reply.data]
            && reply.data == cs[i].(status := Rejected, rejectionReason := reply.data.rejectionReason)
            && (reason.Some? && reason.value != "" ==> reply.data.rejectionReason == reason)
            && (reason.None? || reason.value == "" ==> reply.data.rejectionReason == Some(DefaultRejection)))
  {
    match IndexOf(cs, id)
    case None =>
    case Some(i) =>
      var r := WithRejection(cs[i], reason);
      ResaveKeepsValid(r, now);
  }

  /** A rejected campaign can be approved again: approval reopens it unless
      it is already funded or expired. */
  lemma ApproveReopensRejected(cs: seq<Campaign>, id: nat, reason: Option<string>, adminId: nat, now: int)
    requires forall k | 0 <= k < |cs| :: SchemaValid(cs[k])
    requires IndexOf(cs, id).Some?
    requires var c := cs[IndexOf(cs, id).value]; c.collected < c.goal && !IsExpired(c, now)
    ensures var cs1 := RejectSpec(cs, id, reason, now).1;
      && cs1[IndexOf(cs, id).value].status == Rejected
      && ApproveSpec(cs1, id, adminId, now).0.Ok?
      && ApproveSpec(cs1, id, adminId, now).0.data.status == Active
  {
    var i := IndexOf(cs, id).value;
    RejectFromAnyStatus(cs, id, reason, now);
    var cs1 := RejectSpec(cs, id, reason, now).1;
    SameIndexAfterReplace(cs, i, cs1[i]);
    assert forall k | 0 <= k < |cs1| :: SchemaValid(cs1[k]) by {
      ResaveKeepsValid(WithRejection(cs[i], reason), now);
    }
    ApproveFromAnyStatus(cs1, id, adminId, now);
  }

  /** Replacing a campaign by one with the same id leaves every lookup
      where it was. */
  lemma SameIndexAfterReplace(cs: seq<Campaign>, i: nat, c: Campaign)
    requires i < |cs| && c.id == cs[i].id
    ensures forall id :: IndexOf(cs[i := c], id) == IndexOf(cs, id)
  {
    forall id ensures IndexOf(cs[i := c], id) == IndexOf(cs, id) {
      SameIndexAt(cs, i, c, id);
    }
  }

  lemma {:induction false} SameIndexAt(cs: seq<Campaign>, i: nat, c: Campaign, id: nat)
    requires i < |cs| && c.id == cs[i].id
    ensures IndexOf(cs[i := c], id) == IndexOf(cs, id)
    decreases |cs|
  {
    if cs[0].id != id && i > 0 {
      assert cs[i := c][1..] == cs[1..][i - 1 := c];
      SameIndexAt(cs[1..], i - 1, c, id);
    }
  }

  /** Once rejected, a campaign takes no more donations. */
  lemma RejectStopsDonations(cs: seq<Campaign>, ds: seq<Donation>, id: nat, reason: Option<string>, now: int,
                             body: DonorController.DonationBody, txnId: string)
    requires forall k | 0 <= k < |cs| :: SchemaValid(cs[k])
    requires RejectSpec(cs, id, reason, now).0.Ok?
    requires !DonorController.MissingField(body) && body.campaignId == Some(id)
    ensures var cs1 := RejectSpec(cs, id, reason, now).1;
      DonorController.CreateDonationSpec(cs1, ds, body, now, txnId) == (Fail(400, DonorController.NotAccepting), cs1, ds)
  {
    var i := IndexOf(cs, id).value;
    RejectFromAnyStatus(cs, id, reason, now);
    var cs1 := RejectSpec(cs, id, reason, now).1;
    SameIndexAfterReplace(cs, i, cs1[i]);
  }

  /** Approving or rejecting keeps the store valid and the ledger balanced:
      ids and the money counters are untouched. */
  lemma TransitionsKeepLedger(cs: seq<Campaign>, ds: seq<Donation>, nextId: nat, id: nat, adminId: nat, reason: Option<string>, now: int)
    requires StoreValid(cs, ds, nextId) && Reconciled(cs, ds)
    ensures var cs' := ApproveSpec(cs, id, adminId, now).1; StoreValid(cs', ds, nextId) && Reconciled(cs', ds)
    ensures var cs' := RejectSpec(cs, id, reason, now).1; StoreValid(cs', ds, nextId) && Reconciled(cs', ds)
  {
    ApproveKeepsLedger(cs, ds, nextId, id, adminId, now);
    RejectKeepsLedger(cs, ds, nextId, id, reason, now);
  }

  lemma ApproveKeepsLedger(cs: seq<Campaign>, ds: seq<Donation>, nextId: nat, id: nat, adminId: nat, now: int)
    requires StoreValid(cs, ds, nextId) && Reconciled(cs, ds)
    ensures var cs' := ApproveSpec(cs, id, adminId, now).1; StoreValid(cs', ds, nextId) && Reconciled(cs', ds)
  {
    var i := IndexOf(cs, id);
    if i.Some? {
      ApproveFromAnyStatus(cs, id, adminId, now);
      var approve := ApproveSpec(cs, id, adminId, now).0;
      if approve.Ok? {
        ResaveKeepsValid(WithApproval(cs[i.value], adminId, now), now);
        ReplaceKeepsLedger(cs, ds, nextId, i.value, approve.data);
      }
    }
  }

  lemma RejectKeepsLedger(cs: seq<Campaign>, ds: seq<Donation>, nextId: nat, id: nat, reason: Option<string>, now: int)
    requires StoreValid(cs, ds, nextId) && Reconciled(cs, ds)
    ensures var cs' := RejectSpec(cs, id, reason, now).1; StoreValid(cs', ds, nextId) && Reconciled(cs', ds)
  {
    var i := IndexOf(cs, id);
    if i.Some? {
      RejectFromAnyStatus(cs, id, reason, now);
      var reject := RejectSpec(cs, id, reason, now).0;
      if reject.Ok? {
        ResaveKeepsValid(WithRejection(cs[i.value], reason), now);
        ReplaceKeepsLedger(cs, ds, nextId, i.value, reject.data);
      }
    }
  }

  /** `approveCampaign`: load, assign, save. */
  method ApproveCampaign(db: Database, id: nat, adminId: nat, now: int) returns (reply: Reply<Campaign>)
    modifies db
    ensures (reply, db.campaigns) == ApproveSpec(old(db.campaigns), id, adminId, now)
    ensures db.donations == old(db.donations) && db.admins == old(db.admins) && db.nextId == old(db.nextId)
    ensures old(db.Valid() && Reconciled(db.campaigns, db.donations)) ==> db.Valid() && Reconciled(db.campaigns, db.donations)
  {
    ghost var cs0, ds0, n0 := db.campaigns, db.donations, db.nextId;
    var found := IndexOf(db.campaigns, id);
    if found.None? {
      return Fail(404, CampaignController.NotFound);
    }
    var doc := new CampaignDoc(db.campaigns[found.value], false);
    doc.rec := doc.rec.(status := Active);
    doc.rec := doc.rec.(approvedBy := Some(adminId));
    doc.rec := doc.rec.(approvedAt := Some(now));
    assert doc.rec == WithApproval(db.campaigns[found.value], adminId, now);
    ResaveEitherOrder(doc.rec, now);
    var saved := doc.Save(now, true);
    if saved.None? {
      return Fail(500, ApproveError);
    }
    db.campaigns := db.campaigns[found.value := saved.value];
    reply := Ok(200, saved.value);
    if StoreValid(cs0, ds0, n0) && Reconciled(cs0, ds0) {
      ApproveKeepsLedger(cs0, ds0, n0, id, adminId, now);
    }
  }

  /** `rejectCampaign`: load, assign, save. */
  method RejectCampaign(db: Database, id: nat, reason: Option<string>, now: int) returns (reply: Reply<Campaign>)
    modifies db
    ensures (reply, db.campaigns) == RejectSpec(old(db.campaigns), id, reason, now)
    ensures db.donations == old(db.donations) && db.admins == old(db.admins) && db.nextId == old(db.nextId)
    ensures old(db.Valid() && Reconciled(db.campaigns, db.donations)) ==> db.Valid() && Reconciled(db.campaigns, db.donations)
  {
    ghost var cs0, ds0, n0 := db.campaigns, db.donations, db.nextId;
    var found := IndexOf(db.campaigns, id);
    if found.None? {
      return Fail(404, CampaignController.NotFound);
    }
    var doc := new CampaignDoc(db.campaigns[found.value], false);
    doc.rec := doc.rec.(status := Rejected);
    doc.rec := doc.rec.(rejectionReason := Some(CampaignController.TextOr(reason, DefaultRejection)));
    assert doc.rec == WithRejection(db.campaigns[found.value], reason);
    ResaveEitherOrder(doc.rec, now);
    var saved := doc.Save(now, true);
    if saved.None? {
      return Fail(500, RejectError);
    }
    db.campaigns := db.campaigns[found.value := saved.value];
    reply := Ok(200, saved.value);
    if StoreValid(cs0, ds0, n0) && Reconciled(cs0, ds0) {
      RejectKeepsLedger(cs0, ds0, n0, id, reason, now);
    }
  }

  const AdminExists := "Admin already exists. Use the login endpoint."
  const DefaultEmail := "admin@donation.com"
  const DefaultPassword := "admin123"
  const DefaultName := "Platform Admin"

  /** The `data` of `createDefaultAdmin`'s 201 answer. */
  datatype AdminSummary = AdminSummary(email: string, name: string, role: Role)

  /** `createDefaultAdmin` as a function of the admins and the id generator:
      a 400 if any admin exists, otherwise the one default super admin,
      its password stored as `hash` makes it, active and never logged in. */
  function DefaultAdminSpec(admins: seq<Admin>, nextId: nat, hash: string -> string): (Reply<AdminSummary>, seq<Admin>, nat)
  {
    if admins != [] then (Fail(400, AdminExists), admins, nextId)
    else
      var next: nat := nextId + 1;
      (Ok(201, AdminSummary(DefaultEmail, DefaultName, SuperAdmin)),
       [Admin(nextId, DefaultEmail, hash(DefaultPassword), DefaultName, SuperAdmin, true, None)], next)
  }

  /** The default admin is created at most once: with no admins it creates
      exactly one super admin, and any later call is a 400 that creates
      nothing. */
  lemma DefaultAdminOnce(admins: seq<Admin>, nextId: nat, hash: string -> string)
    ensures var (reply, admins', nextId') := DefaultAdminSpec(admins, nextId, hash);
      && (reply.Ok? <==> admins == [])
      && (reply.Fail? ==> reply == Fail(400, AdminExists) && admins' == admins && nextId' == nextId)
      && (reply.Ok? ==> reply.code == 201 && |admins'| == 1 && admins'[0].role == SuperAdmin && admins'[0].isActive)
      && DefaultAdminSpec(admins', nextId', hash) == (Fail(400, AdminExists), admins', nextId')
  {
  }

  /** The default admin can log in with the default password, once the
      password check accepts what the hash made of it and a token can be
      signed; as written, that login answers 500. */
  lemma DefaultAdminCanLogIn(nextId: nat, hash: string -> string, matches: (string, string) -> bool, sign: nat -> string, now: int)
    requires matches(DefaultPassword, hash(DefaultPassword))
    ensures var admins := DefaultAdminSpec([], nextId, hash).1;
      var reply := Login(admins, false, DefaultEmail, DefaultPassword, matches, sign, now).0;
      reply.Ok? && reply.data.id == nextId && reply.data.role == SuperAdmin
    ensures var admins := DefaultAdminSpec([], nextId, hash).1;
      LoginAsWritten(admins, false, DefaultEmail, DefaultPassword, matches, now).0 == Fail(500, LoginError)
  {
    var admins := DefaultAdminSpec([], nextId, hash).1;
    assert FindAdmin(admins, DefaultEmail) == Some(0);
    LoginAsWrittenFails(admins, false, DefaultEmail, DefaultPassword, matches, now);
  }

  /** `createDefaultAdmin` on the store. */
  method CreateDefaultAdmin(db: Database, hash: string -> string) returns (reply: Reply<AdminSummary>)
    modifies db
    ensures (reply, db.admins, db.nextId) == DefaultAdminSpec(old(db.admins), old(db.nextId), hash)
    ensures db.campaigns == old(db.campaigns) && db.donations == old(db.donations)
    ensures old(db.Valid()) ==> db.Valid()
  {
    if db.admins != [] {
      return Fail(400, AdminExists);
    }
    var admin := Admin(db.nextId, DefaultEmail, hash(DefaultPassword), DefaultName, SuperAdmin, true, None);
    db.admins := [admin];
    db.nextId := db.nextId + 1;
    reply := Ok(201, AdminSummary(admin.email, admin.name, admin.role));
  }

  /** One page of a filtered result, newest first by `key`: the shared tail
      of both admin listings. The page and limit are `parseInt` of the query
      values with destructuring defaults (1 and 20), so an explicit 0 is
      kept; a negative skip is refused by MongoDB. */
  function AdminPage<T>(matching: seq<T>, key: T -> SortKey, page: Option<int>, limit: Option<int>, error: string)
    : Reply<Listing<T>>
  {
    var r := Paginate(SortDesc(matching, key), IfMissing(page, 1), IfMissing(limit, 20));
    if r.None? then Fail(500, error) else Ok(200, r.value)
  }

  /** For a page from 1 on and a positive limit (20 by default), the page
      holds at most `limit` of the matching items, newest first; `total`
      counts every match and `pages` is the number of pages that hold them. */
  lemma AdminPageEnvelope<T>(matching: seq<T>, key: T -> SortKey, page: Option<int>, limit: Option<int>, error: string)
    requires IfMissing(page, 1) >= 1 && IfMissing(limit, 20) > 0
    ensures var r := AdminPage(matching, key, page, limit, error);
      var l := IfMissing(limit, 20);
      && r.Ok? && r.code == 200
      && (page.None? && limit.None? ==> r.data.page == 1 && r.data.count <= 20)
      && r.data.count == |r.data.items| <= l
      && r.data.total == |matching|
      && r.data.pages == Some(CeilDiv(|matching|, l))
      && (forall x | x in r.data.items :: x in matching)
      && SortedDesc(r.data.items, key)
  {
    PaginateProperties(SortDesc(matching, key), IfMissing(page, 1), IfMissing(limit, 20));
    SortedPageProperties(matching, key, IfMissing(page, 1), IfMissing(limit, 20));
  }

  /** Whatever the page and limit, a page that is served holds matching
      items only. */
  lemma AdminPageItems<T>(matching: seq<T>, key: T -> SortKey, page: Option<int>, limit: Option<int>, error: string)
    requires AdminPage(matching, key, page, limit, error).Ok?
    ensures forall x | x in AdminPage(matching, key, page, limit, error).data.items :: x in matching
  {
    var sorted := SortDesc(matching, key);
    var items := AdminPage(matching, key, page, limit, error).data.items;
    forall x | x in items ensures x in matching {
      assert x in sorted;
      assert x in multiset(sorted);
    }
  }

  /** An explicit limit of 0 is no limit: the whole result on one page from
      any page number, and no page count (JavaScript's Infinity or NaN). */
  lemma AdminPageZeroLimit<T>(matching: seq<T>, key: T -> SortKey, page: Option<int>, error: string)
    ensures var r := AdminPage(matching, key, page, Some(0), error);
      && r.Ok? && r.data.items == SortDesc(matching, key) && r.data.total == |matching| && r.data.pages.None?
  {
    var sorted := SortDesc(matching, key);
    assert Paginate(sorted, IfMissing(page, 1), 0).value.items == sorted;
  }

  /** The query of `GET /api/admin/donors`; `None` is a missing value (for
      `campaignId` also an empty one). */
  datatype DonorQuery = DonorQuery(page: Option<int>, limit: Option<int>, search: Option<string>, campaignId: Option<nat>, status: Option<string>)

  /** The status the query asks for: 'completed' when the parameter is
      missing. */
  function RequestedStatus(q: DonorQuery): string
  {
    if q.status.None? then "completed" else q.status.value
  }

  /** The filter object of `getAllDonors`: the payment status unless it is
      empty or 'all'; the campaign, when given; and, for a non-empty search,
      a case-insensitive match in the name, email or phone. */
  predicate DonorSelected(q: DonorQuery, d: Donation)
  {
    && (RequestedStatus(q) == "" || RequestedStatus(q) == "all" || PaymentStatusName(d.paymentStatus) == RequestedStatus(q))
    && (q.campaignId.None? || d.campaignId == q.campaignId.value)
    && (CampaignController.FalsyText(q.search)
        || ContainsIgnoreCase(d.name, q.search.value)
        || ContainsIgnoreCase(d.email, q.search.value)
        || ContainsIgnoreCase(d.phone, q.search.value))
  }

  function DonorsMatching(ds: seq<Donation>, q: DonorQuery): seq<Donation>
  {
    Filter(ds, d => DonorSelected(q, d))
  }

  /** `getAllDonors`: the matching donations, newest first, one page. */
  function AllDonors(ds: seq<Donation>, q: DonorQuery): Reply<Listing<Donation>>
  {
    AdminPage(DonorsMatching(ds, q), ByDate, q.page, q.limit, "Error fetching donors")
  }

  /** The listing is drawn from exactly the donations the filter selects;
      with no status asked for, only completed donations are selected, and
      a status of 'all' or '' selects every status. */
  lemma DonorsSelection(ds: seq<Donation>, q: DonorQuery, x: Donation)
    ensures x in DonorsMatching(ds, q) <==> x in ds && DonorSelected(q, x)
    ensures q.status.None? && DonorSelected(q, x) ==> IsCompleted(x)
    ensures q.status == Some("all") || q.status == Some("") ==>
      forall p :: DonorSelected(q, x) <==> DonorSelected(q, x.(paymentStatus := p))
  {
    if x in ds && DonorSelected(q, x) {
      FilterKeeps(ds, d => DonorSelected(q, d), x);
    }
  }

  /** Every donation a served donors page holds is one the filter
      selects. */
  lemma AllDonorsItems(ds: seq<Donation>, q: DonorQuery)
    requires AllDonors(ds, q).Ok?
    ensures forall x | x in AllDonors(ds, q).data.items :: x in ds && DonorSelected(q, x)
  {
    AdminPageItems(DonorsMatching(ds, q), ByDate, q.page, q.limit, "Error fetching donors");
  }

  /** A donors page holds only selected donations, newest first, with the
      shared envelope. */
  lemma AllDonorsPage(ds: seq<Donation>, q: DonorQuery)
    requires IfMissing(q.page, 1) >= 1 && IfMissing(q.limit, 20) > 0
    ensures var r := AllDonors(ds, q);
      && r.Ok? && r.data.count <= IfMissing(q.limit, 20)
      && r.data.total == |DonorsMatching(ds, q)|
      && (forall x | x in r.data.items :: x in ds && DonorSelected(q, x))
      && SortedDesc(r.data.items, ByDate)
  {
    var m := DonorsMatching(ds, q);
    AdminPageEnvelope(m, ByDate, q.page, q.limit, "Error fetching donors");
    forall x | x in AllDonors(ds, q).data.items ensures x in ds && DonorSelected(q, x) {
      DonorsSelection(ds, q, x);
    }
  }

  /** The query of `GET /api/admin/campaigns`. */
  datatype AdminCampaignQuery = AdminCampaignQuery(page: Option<int>, limit: Option<int>, status: Option<string>, category: Option<string>, search: Option<string>)

  /** The filter object of the admin `getAllCampaigns`: the status unless it
      is missing, empty or 'all'; the category likewise (compared after the
      path's `lowercase` setter, so 'All' selects nothing while 'all' selects
      everything); and, for a non-empty search, a case-insensitive match in
      the title, creator name or creator email. */
  predicate CampaignSelected(q: AdminCampaignQuery, c: Campaign)
  {
    && (CampaignController.FalsyText(q.status) || q.status.value == "all" || StatusName(c.status) == q.status.value)
    && (CampaignController.FalsyText(q.category) || q.category.value == "all" || Lower(q.category.value) == CategoryName(c.category))
    && (CampaignController.FalsyText(q.search)
        || ContainsIgnoreCase(c.title, q.search.value)
        || ContainsIgnoreCase(c.creatorName, q.search.value)
        || ContainsIgnoreCase(c.creatorEmail, q.search.value))
  }

  function ByCreated(c: Campaign): SortKey { SortKey(c.createdAt, 0) }

  function CampaignsMatching(cs: seq<Campaign>, q: AdminCampaignQuery): seq<Campaign>
  {
    Filter(cs, c => CampaignSelected(q, c))
  }

  /** The admin `getAllCampaigns`: the matching campaigns, newest created
      first, one page. */
  function AdminCampaigns(cs: seq<Campaign>, q: AdminCampaignQuery): Reply<Listing<Campaign>>
  {
    AdminPage(CampaignsMatching(cs, q), ByCreated, q.page, q.limit, "Error fetching campaigns")
  }

  /** The listing is drawn from exactly the campaigns the filter selects.
      Unlike the public listing, which shows active campaigns only, the
      admin listing with no status shows every status, pending ones
      included. */
  lemma AdminCampaignsSelection(cs: seq<Campaign>, q: AdminCampaignQuery, x: Campaign)
    ensures x in CampaignsMatching(cs, q) <==> x in cs && CampaignSelected(q, x)
    ensures q.status.None? ==> forall s :: CampaignSelected(q, x) <==> CampaignSelected(q, x.(status := s))
    ensures q.category == Some("All") ==> !CampaignSelected(q, x)
  {
    if x in cs && CampaignSelected(q, x) {
      FilterKeeps(cs, c => CampaignSelected(q, c), x);
    }
    if q.category == Some("All") {
      assert Lower("All") == "all";
      ParseCategoryExact("all", x.category);
    }
  }

  /** A pending campaign is listed to admins by default and hidden from
      the public listing by default. */
  lemma PendingOnlyForAdmins(c: Campaign)
    requires c.status == Pending
    ensures CampaignSelected(AdminCampaignQuery(None, None, None, None, None), c)
    ensures !CampaignController.Selects(CampaignController.CampaignQuery(None, None, None, None, None, None), c)
  {
    ParseStatusExact("active", c.status);
  }

  /** An admin campaigns page holds only selected campaigns, newest created
      first, with the shared envelope. */
  lemma AdminCampaignsPage(cs: seq<Campaign>, q: AdminCampaignQuery)
    requires IfMissing(q.page, 1) >= 1 && IfMissing(q.limit, 20) > 0
    ensures var r := AdminCampaigns(cs, q);
      && r.Ok? && r.data.count <= IfMissing(q.limit, 20)
      && r.data.total == |CampaignsMatching(cs, q)|
      && (forall x | x in r.data.items :: x in cs && CampaignSelected(q, x))
      && SortedDesc(r.data.items, ByCreated)
  {
    var m := CampaignsMatching(cs, q);
    AdminPageEnvelope(m, ByCreated, q.page, q.limit, "Error fetching campaigns");
    forall x | x in AdminCampaigns(cs, q).data.items ensures x in cs && CampaignSelected(q, x) {
      AdminCampaignsSelection(cs, q, x);
    }
  }
}
