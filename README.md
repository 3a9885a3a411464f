# Campaign funding ledger — a Dafny model

The system is a donation platform: an Express/Mongoose back end and React
admin pages. People create fundraising **campaigns**. Donors give to active
campaigns. Every completed donation is credited to its campaign's
`collected` total and `donorCount`. A campaign completes itself once its
goal is met, and cancels itself once it expires unfunded. Admins log in,
approve or reject campaigns, and browse donors and campaigns page by page.

This project models that core and proves properties of it.

- **Data.** The database is a `Store.Database` object. It holds the campaign,
  donation and admin collections as sequences, plus a fresh-id generator.
- **Documents.** Mongoose documents are Dafny datatypes (`Campaign`,
  `Donation`, `Admin`).
- **Hooks.** The document hooks that update fields in place are methods of
  `CampaignModel.CampaignDoc` and `Store.Database`.
- **Controllers.** Each controller action is a method on the database. Each
  method is proved equal to a specification function. The lemmas state what
  the source promises of those functions, for example:
  - request validation and error answers;
  - the ledger invariant `Store.Reconciled` (each campaign's totals are
    exactly its completed donations);
  - whitelisting;
  - the login decision table;
  - paging arithmetic;
  - the reporting folds.
- **Time.** Time is an integer number of milliseconds, `now`, passed in by
  the caller.
- **Helper modules.**
  - `Basics`: Option, sums and filters.
  - `Text`: ASCII case, trim, split and join, decimal strings.
  - `Sorting`: a stable descending sort and `sort().limit()`.
  - `Paging`: `parseInt` defaults, MongoDB `skip`/`limit`, page counts.

Modules follow the source files:

| module | source |
|---|---|
| `CampaignModel` (campaign.dfy) | src/backend/models/Campaign.js |
| `DonorModel` (donor.dfy) | src/backend/models/Donor.js |
| `Store` (store.dfy) | the collections, the donation post-save hook and the ledger invariant |
| `DonorController` (donor_controller.dfy) | src/backend/controllers/donorController.js |
| `CampaignController` (campaign_controller.dfy) | src/backend/controllers/campaignController.js |
| `AdminController` (admin_controller.dfy) | src/backend/controllers/adminController.js |
| `Auth` (auth.dfy) | src/backend/middleware/auth.js |
| `AdminDashboard` (admin_dashboard.dfy) | src/pages/AdminDashboard.tsx |
| `CampaignTracking` (campaign_tracking.dfy) | src/pages/CampaignTracking.tsx |

Where the code and the project's written description disagree, the model
follows the code:

- `approveCampaign` and `rejectCampaign` accept a campaign in any status.
  There is no "must be pending" check.
- `deleteCampaign` removes a campaign whatever donations it holds.
- `getAllDonors` defaults to completed donations only.

Five defects are listed under "## Findings". For each, the model has the
code as written and the corrected behaviour side by side:

- Row 1: `CampaignDoc.Save` and `createCampaign` take the validation order
  as a parameter. Validators first is Mongoose's order and the code as
  written.
- Row 2: the donation post-save hook used by the handlers is the guarded
  one. `Store.HookOutcomeAsWritten` is the hook as written.
- Row 3: the donation answer reads the defined percentage virtual.
  `DonorController.SummaryAsWritten` is the answer as written.
- Row 4: `adminLogin` takes the token signer as an optional parameter.
  `LoginAsWritten` has none, as the code's missing import gives.
- Row 5: the dashboard's donors fetch takes the status it sends as a
  parameter. `AdminDashboard.AsWrittenHidesOtherStatuses` is the fetch as
  written.

The lines under "## Left out" name the members that state only the
corrected behaviour.

## Model

| member | source | states |
|---|---|---|
| CampaignModel.ParseCategoryExact | src/backend/models/Campaign.js:16-24 | a category is accepted exactly when, lowercased, it is one of schools, children, health, other |
| CampaignModel.ParseStatusExact | src/backend/models/Campaign.js:48-52 | a status is accepted exactly when it is one of the five enum names |
| CampaignModel.DaysRemaining | src/backend/models/Campaign.js:113-119 | days remaining are defined exactly when an end date is, and are never negative |
| CampaignModel.DaysRemainingMeaning | src/backend/models/Campaign.js:113-124 | zero days remain exactly when the end date is reached; a positive count means not expired, and is the least number of whole days that reach the end date |
| CampaignModel.RoundedPercent | src/backend/models/Campaign.js:109 | in exact arithmetic, `Math.round` of the percentage is the whole number nearest to collected·100/goal, halves rounded up |
| CampaignModel.PercentageCompleted | src/backend/models/Campaign.js:108-110 | the percentage lies in [0, 100] when nothing negative is collected, and is 100 once the goal is met |
| CampaignModel.PercentageMonotone | src/backend/models/Campaign.js:108-110 | collecting more never shows a smaller percentage |
| CampaignModel.StatusHookRules | src/backend/models/Campaign.js:137-149 | the status hook changes only the status, and only of an active campaign: funded becomes completed (even if also expired), unfunded and expired becomes cancelled, otherwise it stays active |
| CampaignModel.StatusHookSettles | src/backend/models/Campaign.js:137-149 | after the hook an active campaign is neither funded nor expired, and a second run changes nothing |
| CampaignModel.AsWrittenRejectsNewCampaigns | src/backend/models/Campaign.js:39-42 | with validators running before the hooks (Mongoose's order), a new campaign without an end date is never saved |
| CampaignModel.NewCampaignSave | src/backend/models/Campaign.js:127-149 | with the end-date hook run before the validators (the corrected order of Findings row 1), a fresh active campaign is saved exactly when, with its end date set, it passes the validators; it is then stored unchanged and still active |
| CampaignModel.SaveSetsEndDateOnce | src/backend/models/Campaign.js:127-134 | with the hooks before the validators (Findings row 1), a new valid campaign gets end date now + duration days; a later save never moves the end date |
| CampaignModel.ResaveKeepsValid | src/backend/models/Campaign.js:137-149 | re-saving a valid stored campaign always succeeds, and only the status hook acts |
| CampaignModel.ResaveEitherOrder | src/backend/models/Campaign.js:127-149 | for a stored document, which the end-date hook skips, validating before or after the hooks gives the same outcome |
| CampaignModel.CampaignDoc.constructor | src/backend/models/Campaign.js:3-105 | a document holds the given record and `isNew` flag |
| CampaignModel.CampaignDoc.EndDateHook | src/backend/models/Campaign.js:127-134 | the in-place end-date hook matches `EndDateOnSave` |
| CampaignModel.CampaignDoc.StatusHook | src/backend/models/Campaign.js:137-149 | the in-place status hook matches `StatusOnSave` |
| CampaignModel.CampaignDoc.Save | src/backend/models/Campaign.js:127-149 | `save()` in either order: validators first (Mongoose's, `SaveOutcomeAsWritten`; a failed validation leaves the record untouched) or hooks first (`SaveOutcome`); the document stops being new only on success |
| CampaignModel.Statistics | src/backend/models/Campaign.js:167-194 | totalCampaigns counts every campaign; active + completed ≤ total; no campaigns gives all zeros |
| CampaignModel.StatisticsAreSums | src/backend/models/Campaign.js:170-182 | each accumulator is the plain count or sum over the campaigns |
| CampaignModel.StatisticsAppend | src/backend/models/Campaign.js:167-194 | the statistics of a concatenation combine those of its parts, so the fold does not depend on order of grouping |
| DonorModel.NewDonationDefaults | src/backend/models/Donor.js:10-65 | schema defaults: shown publicly, payment completed, no transaction id, no receipt, dated now; the e-mail is stored lowercased and trimmed |
| DonorModel.TransactionIdRules | src/backend/models/Donor.js:83-89 | the id hook only fills a missing id of a new document; an existing id is never replaced and nothing else changes |
| DonorModel.Emails | src/backend/models/Donor.js:126 | there are never more distinct e-mails than donations |
| DonorModel.EmailsMembership | src/backend/models/Donor.js:126 | an e-mail is among the distinct ones exactly when some donation carries it |
| DonorModel.StatisticsProperties | src/backend/models/Donor.js:115-146 | only completed donations count; distinct donors ≤ donations; with nothing completed every figure is 0; amounts ≥ 1 make total ≥ count |
| DonorModel.NewestFirstProperties | src/backend/models/Donor.js:155-156 | `sort({date:-1}).limit(n)` returns input donations, newest first, exactly min(abs(n), count) of them (all for n = 0); a donation left out means the limit is filled and the last entry is at least as new |
| DonorModel.CampaignPublic | src/backend/models/Donor.js:150-154 | the campaign's listing draws only from its completed, public donations |
| DonorModel.ByCampaignProperties | src/backend/models/Donor.js:149-158 | every entry is a completed public donation to that campaign, newest first; there are exactly min(limit, such donations) of them (limit 10 by default); such a donation left out means the limit is filled and the last entry is at least as new; the entry type has no e-mail or phone |
| DonorModel.PublicCompleted | src/backend/models/Donor.js:162-165 | the recent list draws only from completed, public donations |
| DonorModel.RecentProperties | src/backend/models/Donor.js:161-170 | entries are completed public donations, newest first, exactly min(limit, such donations) of them (limit 20 by default); such a donation left out means the limit is filled and the last entry is at least as new |
| DonorModel.AddToGroups | src/backend/models/Donor.js:181-188 | one donation grows its e-mail's row, or opens a new row at the end; e-mails stay distinct and other rows are unchanged |
| DonorModel.GroupByEmail | src/backend/models/Donor.js:181-188 | the grouping has one row per e-mail |
| DonorModel.GroupRowsExact | src/backend/models/Donor.js:182-187 | each row is that e-mail's exact group: the first donation's name, the sum of amounts and the number of donations |
| DonorModel.GroupsCoverEmails | src/backend/models/Donor.js:181-188 | every donor e-mail has a row |
| DonorModel.GroupCount | src/backend/models/Donor.js:181-188 | the grouping has exactly as many rows as there are distinct e-mails |
| DonorModel.TopDonorsProperties | src/backend/models/Donor.js:173-205 | rows are exact groups of completed public donations, by total descending, exactly min(limit, distinct donors) of them (limit 10 by default), with no e-mail twice |
| DonorModel.TopDonorsComplete | src/backend/models/Donor.js:189-194 | a donor without a row means all limit rows are filled and the last row's total is at least that donor's total |
| Store.IndexOf | src/backend/controllers/campaignController.js:135 | `findById` finds the campaign with that id, or reports that none has it |
| Store.HookOutcome | src/backend/models/Donor.js:92-106 | the post-save hook never adds or removes campaigns |
| Store.HookOutcomeCredits | src/backend/models/Donor.js:92-106 | the guarded hook credits an inserted completed donation once (amount and one donor, status settled) to its own campaign; anything else leaves every campaign as it was |
| Store.HookOutcomeAsWritten | src/backend/models/Donor.js:92-106 | the hook as written, with no `isNew` guard, never adds or removes campaigns and ignores a donation that is not completed |
| Store.ResaveCreditsTwice | src/backend/models/Donor.js:92-106 | re-saving a stored completed donation of a balanced ledger makes the unguarded hook credit its campaign again: `collected` exceeds the recorded completed sum by the amount and the ledger no longer balances; the guarded hook changes nothing |
| Store.Database.InsertDonation | src/backend/controllers/donorController.js:37-47 | `Donor.create` on a donation that passes the validators gives it its transaction id, appends it, and runs the post-save hook |
| Store.Database.CreditCampaign | src/backend/models/Donor.js:92-106 | the in-place hook matches `HookOutcome` and touches nothing but the campaigns |
| DonorController.SummaryAsWrittenHasNoProgress | src/backend/controllers/donorController.js:69 | as written, the answer never carries a progress figure, although the campaign has one |
| DonorController.SummaryReportsProgress | src/backend/controllers/donorController.js:64-70 | reading the defined virtual reports the saved campaign's percentage, in [0, 100], and 100 once funded |
| DonorController.CreateDonationRejects | src/backend/controllers/donorController.js:12-34 | a missing field gives 400, an unknown campaign 404, a non-active campaign 400 and an invalid donation 500, none changing anything; success implies every check passed, and the end date is never consulted |
| DonorController.CreditRules | src/backend/controllers/donorController.js:50-56 | crediting an active campaign adds the amount and one donor, completes it once funded, and cancels it when unfunded and expired |
| DonorController.CreateDonationShape | src/backend/controllers/donorController.js:37-58 | a donation that passes every check is recorded as `Record` describes |
| DonorController.NewDonationFromBody | src/backend/controllers/donorController.js:37-47 | the recorded donation is completed, has the body's amount and campaign, is public unless the body says otherwise, and carries its transaction id |
| DonorController.RecordCredits | src/backend/controllers/donorController.js:50-70 | success appends the donation once; its campaign gains the amount and one donor (completed when funded); other campaigns are unchanged; the answer reports the new total and the goal |
| DonorController.CreateDonationKeepsLedger | src/backend/controllers/donorController.js:7-81 | whatever the request, the store stays valid and every campaign's totals still equal its completed donations |
| DonorController.RecordKeepsLedger | src/backend/controllers/donorController.js:37-58 | recording a completed donation for an active campaign keeps the ledger balanced |
| DonorController.HookCreditsStored | src/backend/models/Donor.js:92-106 | on insert, the hook re-saves the named campaign with the donation applied, or leaves the campaigns alone when that save fails |
| DonorController.ControllerCompletionAgrees | src/backend/controllers/donorController.js:54-56 | the controller's own `status = 'completed'` writes what the status hook would write anyway |
| DonorController.CreateDonation | src/backend/controllers/donorController.js:7-81 | the step-by-step handler produces exactly the answer and collections of `CreateDonationSpec`, and leaves the admins and id generator alone; a valid store with a balanced ledger stays so |
| DonorController.RecordDonation | src/backend/controllers/donorController.js:37-81 | the insert, the hook and the controller's stale-copy save together give `Record`: the donation is credited once |
| DonorController.SaveLoadedCopy | src/backend/controllers/donorController.js:50-58 | the controller's save of its copy writes only the modified paths over the stored campaign |
| DonorController.RequestedSelects | src/backend/controllers/donorController.js:90-93 | the filter keeps exactly the requested campaign's donations, or all of them |
| DonorController.AllDonationsEnvelope | src/backend/controllers/donorController.js:95-113 | page 1 and limit 50 by default; count ≤ limit; total counts the filtered donations; pages = ceil(total/limit) |
| DonorController.AllDonationsItems | src/backend/controllers/donorController.js:99-103 | a page holds only filtered donations, newest first |
| DonorController.DonationStatsCountsEverything | src/backend/controllers/donorController.js:158-187 | the public stats count and sum donations of every payment status (completed total plus the rest), and list exactly min(10, all) donations, newest first; a donation left out is no newer than the tenth listed |
| CampaignController.TextOr | src/backend/controllers/campaignController.js:36-39 | `s \|\| d` gives d exactly for a missing or empty string |
| CampaignController.NewCampaign | src/backend/controllers/campaignController.js:30-42 | a document is built exactly when the category is one the enum accepts |
| CampaignController.CreateCampaignAsWrittenNeverCreates | src/backend/controllers/campaignController.js:22-57 | as written, every request fails and nothing is stored: 400 exactly for a missing field, otherwise 500 |
| CampaignController.CreateCampaignOutcomes | src/backend/controllers/campaignController.js:22-57 | a missing field gives 400; failures change nothing; creation happens exactly when the category is known and the document with its end date passes the validators |
| CampaignController.NewCampaignDefaults | src/backend/controllers/campaignController.js:30-42 | a new campaign is active, with the fresh id, nothing collected, no donors and start = now; creator 'Anonymous', not urgent and no documents by default |
| CampaignController.CreateCampaignStores | src/backend/controllers/campaignController.js:30-48 | a created campaign is appended with its end date duration days from now, active and valid, and the id generator moves on |
| CampaignController.CreateCampaignKeepsLedger | src/backend/controllers/campaignController.js:6-58 | creating a campaign keeps the store valid and the ledger balanced |
| CampaignController.CreateWithKeepsLedger | src/backend/controllers/campaignController.js:6-58 | creation keeps the store valid and balanced in either validation order |
| CampaignController.CreateCampaign | src/backend/controllers/campaignController.js:6-58 | with validators first (Mongoose's order) the handler produces exactly `CreateCampaignAsWritten`, which never creates a campaign; with the hooks first, exactly `CreateCampaignSpec`; answer, campaigns and next id alike; a valid store with a balanced ledger stays so |
| CampaignController.ListedSelects | src/backend/controllers/campaignController.js:67-88 | the listing keeps exactly the campaigns the filter object selects, in order |
| CampaignController.SelectsDefaults | src/backend/controllers/campaignController.js:70-80 | with no status only active campaigns are listed; 'All Campaigns' filters no category |
| CampaignController.AllCampaignsEnvelope | src/backend/controllers/campaignController.js:90-116 | page 1 and limit 20 by default; count ≤ limit; total uses the page's filter; pages = ceil(total/limit) |
| CampaignController.AllCampaignsItems | src/backend/controllers/campaignController.js:95-107 | a page holds only selected campaigns, in the order sortBy picks |
| CampaignController.CampaignById | src/backend/controllers/campaignController.js:133-157 | 200 with the stored campaign of that id, or 404 when no campaign has it |
| CampaignController.DigitsRoundTrip | src/backend/controllers/campaignController.js:186 | the decimal form of a number casts back to that number |
| CampaignController.NumberStringRoundTrip | src/backend/controllers/campaignController.js:186 | any integer written as a string casts back to itself on a Number path |
| CampaignController.NegativeParses | src/backend/controllers/campaignController.js:186 | a minus sign and digits cast to the negated number |
| CampaignController.WhitelistComplete | src/backend/controllers/campaignController.js:173-182 | the whitelist names each assignable path exactly once |
| CampaignController.Accept | src/backend/controllers/campaignController.js:186 | a cast value always has the kind its path holds |
| CampaignController.Read | src/backend/controllers/campaignController.js:173-182 | a path's value always has that path's kind |
| CampaignController.WriteThenRead | src/backend/controllers/campaignController.js:186 | a written path reads back what was written, and no other path changes |
| CampaignController.ReadThenWrite | src/backend/controllers/campaignController.js:186 | writing back a path's own value changes nothing |
| CampaignController.ApplyUpdatesFields | src/backend/controllers/campaignController.js:184-188 | after the loop, paths outside the whitelist are unchanged, omitted fields keep their value, and given fields hold their cast value |
| CampaignController.ApplyUpdatesRefuses | src/backend/controllers/campaignController.js:184-188 | the loop fails exactly when some given field's value is refused |
| CampaignController.JsonRoundTrip | src/backend/controllers/campaignController.js:184-188 | casting a path's JSON value gives that value back |
| CampaignController.OwnValuesChangeNothing | src/backend/controllers/campaignController.js:184-188 | sending a campaign's own values back changes nothing |
| CampaignController.UpdateRefused | src/backend/controllers/campaignController.js:164-205 | failures change nothing; 404 exactly for an unknown id; 500 when a given field is refused |
| CampaignController.UpdateChangesOnlyWhitelist | src/backend/controllers/campaignController.js:173-196 | success replaces that one campaign; paths outside the whitelist (money, counters, category, creator, end date) are unchanged; omitted fields are kept; given fields hold the cast value; the status hook has run |
| CampaignController.UpdateKeepsLedger | src/backend/controllers/campaignController.js:162-206 | updating keeps the store valid and the ledger balanced |
| CampaignController.UpdateCampaign | src/backend/controllers/campaignController.js:162-206 | the load/assign-each/save handler, saving in Mongoose's order, produces exactly `UpdateSpec` (the two orders agree on a stored campaign); a valid store with a balanced ledger stays so |
| CampaignController.DeleteOutcome | src/backend/controllers/campaignController.js:213-227 | deletion succeeds exactly when the id exists, whatever its donations, removing one campaign; 404 changes nothing |
| CampaignController.DeleteKeepsOthers | src/backend/controllers/campaignController.js:222 | what remains is exactly every other campaign |
| CampaignController.DeleteKeepsLedger | src/backend/controllers/campaignController.js:211-237 | deleting keeps the store valid and the ledger balanced for the remaining campaigns |
| CampaignController.DeleteCampaign | src/backend/controllers/campaignController.js:211-237 | the handler produces exactly `DeleteSpec`; a valid store with a balanced ledger stays so |
| CampaignController.CategoriesPartitionActive | src/backend/controllers/campaignController.js:251-255 | every active campaign is in exactly one category group |
| CampaignController.StatsTotals | src/backend/controllers/campaignController.js:244-265 | totalCampaigns is the active count and equals the sum of the category groups; totalRaised sums active campaigns only, is 0 when there are none, and is never negative |
| CampaignController.AllGroups | src/backend/controllers/campaignController.js:251-255 | each group's count is its category's active count |
| CampaignController.StatsGroupsExact | src/backend/controllers/campaignController.js:251-255 | groups are sorted by count descending, each non-empty and exact |
| CampaignController.StatsGroupsComplete | src/backend/controllers/campaignController.js:251-255 | every category with an active campaign has its group |
| CampaignController.StatsUrgent | src/backend/controllers/campaignController.js:257-259 | exactly min(5, urgent active campaigns) campaigns, newest first, each urgent and active |
| CampaignController.StatsUrgentComplete | src/backend/controllers/campaignController.js:257-259 | an urgent active campaign left out means five are listed and the fifth started no earlier |
| AdminController.FindAdmin | src/backend/controllers/adminController.js:24 | `findOne({ email })` finds the first admin with that e-mail, or reports that none has it |
| AdminController.LoginHidesUnknownEmail | src/backend/controllers/adminController.js:26-49 | an unknown e-mail and a wrong password get the same 401 and change nothing |
| AdminController.LoginInactiveFirst | src/backend/controllers/adminController.js:34-39 | an inactive admin gets 401 "deactivated" whatever the password, and nothing changes |
| AdminController.LoginSucceeds | src/backend/controllers/adminController.js:10-77 | login succeeds exactly for a valid request from an active admin with a matching password; the answer carries the token, id, e-mail, name and role (no password); only that admin's lastLogin changes; refusals change nothing |
| AdminController.LoginAsWrittenFails | src/backend/controllers/adminController.js:52-55 | as written, no login succeeds: correct credentials get 500 after lastLogin is already stamped |
| AdminController.AdminLogin | src/backend/controllers/adminController.js:10-77 | the handler on the store produces exactly `LoginWith` and changes only the admins |
| AdminController.ApproveFromAnyStatus | src/backend/controllers/adminController.js:283-313 | approval succeeds for any existing campaign whatever its status, records approver and time, changes nothing else but the status, which stays active exactly when unfunded and unexpired; 404 otherwise |
| AdminController.RejectFromAnyStatus | src/backend/controllers/adminController.js:318-349 | rejection succeeds for any existing campaign, sets rejected and the reason (or the default one), and changes nothing else; 404 otherwise |
| AdminController.ApproveReopensRejected | src/backend/controllers/adminController.js:294-297 | a rejected, unfunded, unexpired campaign becomes active again on approval |
| AdminController.RejectStopsDonations | src/backend/controllers/adminController.js:331-333 | once rejected, a campaign refuses donations with 400 |
| AdminController.TransitionsKeepLedger | src/backend/controllers/adminController.js:283-349 | approving and rejecting keep the store valid and the ledger balanced |
| AdminController.ApproveCampaign | src/backend/controllers/adminController.js:283-313 | the handler, saving in Mongoose's order, produces exactly `ApproveSpec`; a valid store with a balanced ledger stays so |
| AdminController.RejectCampaign | src/backend/controllers/adminController.js:318-349 | the handler, saving in Mongoose's order, produces exactly `RejectSpec`; a valid store with a balanced ledger stays so |
| AdminController.DefaultAdminOnce | src/backend/controllers/adminController.js:357-372 | the default super admin is created exactly when no admin exists; any later call is 400 and creates nothing |
| AdminController.DefaultAdminCanLogIn | src/backend/controllers/adminController.js:367-372 | with a token signer (the corrected login of Findings row 4) the created default admin can log in with the default password; as written, that login answers 500 |
| AdminController.CreateDefaultAdmin | src/backend/controllers/adminController.js:354-392 | the handler produces exactly `DefaultAdminSpec` and keeps the store valid |
| AdminController.AdminPageEnvelope | src/backend/controllers/adminController.js:191-207 | page 1 and limit 20 by default; count ≤ limit; total counts the matches; pages = ceil(total/limit); items are matches, newest first |
| AdminController.AdminPageItems | src/backend/controllers/adminController.js:191-197 | any served page holds matching items only |
| AdminController.AdminPageZeroLimit | src/backend/controllers/adminController.js:191-207 | an explicit limit 0 serves the whole result with no page count |
| AdminController.DonorsSelection | src/backend/controllers/adminController.js:165-189 | the listing draws exactly from selected donations; no status means completed only; 'all' ignores the status |
| AdminController.AllDonorsItems | src/backend/controllers/adminController.js:193-197 | every donation on a served page is selected |
| AdminController.AllDonorsPage | src/backend/controllers/adminController.js:191-207 | a donors page holds selected donations only, newest first, at most limit, with total over all selected |
| AdminController.AdminCampaignsSelection | src/backend/controllers/adminController.js:233-249 | the listing draws exactly from selected campaigns; no status selects every status; category 'All' selects nothing |
| AdminController.PendingOnlyForAdmins | src/backend/controllers/adminController.js:235-237 | a pending campaign is listed to admins by default but hidden from the public listing |
| AdminController.AdminCampaignsPage | src/backend/controllers/adminController.js:251-267 | an admin campaigns page holds selected campaigns only, newest created first, at most limit |
| Auth.Request.constructor | src/backend/middleware/auth.js:5-8 | a request starts with its header and no admin |
| Auth.FindById | src/backend/middleware/auth.js:17 | the admin found is the password-less view of an admin with that id; none when no admin has it |
| Auth.Protect | src/backend/middleware/auth.js:5-50 | the middleware produces exactly `ProtectSpec`'s gate and `req.admin`, leaving the header alone |
| Auth.ProtectGate | src/backend/middleware/auth.js:5-50 | a request passes exactly with a 'Bearer' header whose second part verifies and names an active admin, who is then on the request; every denial is 401; no usable header means "no token" and leaves `req.admin` alone |
| Auth.BearerToken | src/backend/middleware/auth.js:8-11 | "Bearer " + a space-free token yields that token |
| Auth.LooseBearerPrefix | src/backend/middleware/auth.js:8-11 | any header "Bearer" followed by space-free text (as "Bearerx t") passes the prefix test, and the token is what follows the first space |
| Auth.DoubleSpaceFails | src/backend/middleware/auth.js:11-41 | two spaces after 'Bearer' make the token empty, so the request fails with "token failed" whatever follows |
| Auth.IsSuperAdmin | src/backend/middleware/auth.js:53-62 | the role gate passes or answers 403 |
| Auth.SuperAdminBehindProtect | src/backend/middleware/auth.js:53-62 | behind `protect`, the role gate passes exactly when the token names an active super admin |
| AdminDashboard.PageButtons | src/pages/AdminDashboard.tsx:451-454 | there are min(5, totalPages) buttons, numbered 1..totalPages when there are at most five pages |
| AdminDashboard.PageButtonsWindow | src/pages/AdminDashboard.tsx:455-461 | with more than five pages, the buttons are five consecutive pages inside [1, total] containing the current one, starting at 1 near the front, ending at total near the back, otherwise centred |
| AdminDashboard.ShowingRangeMatchesPage | src/pages/AdminDashboard.tsx:439 | for an existing page, "Showing X to Y" counts exactly the items the server put on it |
| AdminDashboard.Previous | src/pages/AdminDashboard.tsx:445 | Previous never goes below 1, and steps back from any later page |
| AdminDashboard.Next | src/pages/AdminDashboard.tsx:479 | Next never goes beyond totalPages, and steps on from any earlier page |
| AdminDashboard.PrevNextStayInRange | src/pages/AdminDashboard.tsx:445-479 | Previous and Next keep a page in [1, total] and stop at the ends |
| AdminDashboard.StatusFilterSelects | src/pages/AdminDashboard.tsx:196-198 | 'all' keeps the list; otherwise exactly the donors of that status are kept |
| AdminDashboard.SearchChanged | src/pages/AdminDashboard.tsx:273-276 | typing a search sets the term and goes back to page 1, keeping the status filter |
| AdminDashboard.AsWrittenHidesOtherStatuses | src/pages/AdminDashboard.tsx:77-81 | as written, the 'pending' and 'failed' filters always show an empty table |
| AdminDashboard.SendingStatusShowsIt | src/pages/AdminDashboard.tsx:196-198 | sending the chosen status, every row has it and every matching donation of that status is counted |
| CampaignTracking.ProgressFigures | src/pages/CampaignTracking.tsx:440-441 | the bar is in [0, 100], full exactly from 99.5% of the goal; an over-funded campaign shows a full bar and negative remaining |
| CampaignTracking.FullBar | src/pages/CampaignTracking.tsx:441 | the bar reads 100% exactly when collected is at least 99.5% of the goal |
| CampaignTracking.SearchFilterSelects | src/pages/CampaignTracking.tsx:158-166 | an empty search keeps the list; otherwise exactly the matching campaigns in order, and searching again changes nothing |
| CampaignTracking.TotalsRemaining | src/pages/CampaignTracking.tsx:313-341 | the goal card minus the collected card is the sum of the rows' remaining amounts |
| CampaignTracking.TotalsAdd | src/pages/CampaignTracking.tsx:313-341 | the cards of two pages together are the sums of each page's cards; stored campaigns give a non-negative collected total |
| CampaignTracking.CsvFields | src/pages/CampaignTracking.tsx:251-263 | each campaign line has eleven fields, as many as the header |
| CampaignTracking.CsvLines | src/pages/CampaignTracking.tsx:265-268 | the export has one header line plus one line per campaign |
| CampaignTracking.HeaderReadsBack | src/pages/CampaignTracking.tsx:250 | the header line is a single line that splits back into the eleven column names |
| CampaignTracking.RowReadsBack | src/pages/CampaignTracking.tsx:251-267 | a campaign line without separators in its free text is a single line that splits back into its eleven fields |
| CampaignTracking.LinesReadBack | src/pages/CampaignTracking.tsx:265-268 | every line of a clean export is single and splits back into its campaign's fields |
| CampaignTracking.CsvReadsBack | src/pages/CampaignTracking.tsx:249-268 | a clean export reads back as the header, then one line per searched campaign, in order, with exactly its fields |
| CampaignTracking.CommaInTitleShiftsColumns | src/pages/CampaignTracking.tsx:267 | nothing is quoted: a title "a,b" makes its line split into twelve fields |
| CampaignTracking.JoinSplitsField | src/pages/CampaignTracking.tsx:267 | a comma inside a field joins to the same text as that field cut into two, so the unquoted line cannot tell them apart |
| CampaignTracking.ToggleRules | src/pages/CampaignTracking.tsx:120-151 | clicks alternate collapse and expand; the cache only grows and never changes an entry; a cached campaign is not fetched again |
| CampaignTracking.ToggleKeepsCacheFaithful | src/pages/CampaignTracking.tsx:120-141 | clicks answered by the server keep every cached list to completed donations of its own campaign |
| CampaignTracking.FetchedDonorsFaithful | src/pages/CampaignTracking.tsx:127-130 | a campaign's fetch answers with min(1000, matches) donations, all completed donations of that campaign, and with every one of them when there are at most 1000 |
| CampaignTracking.FetchedSelected | src/pages/CampaignTracking.tsx:127-130 | the fetch, sending no status, selects exactly the completed donations of the campaign |
| CampaignTracking.PagerFetchesServed | src/pages/CampaignTracking.tsx:624-632 | Previous and Next from a valid page stay in [1, totalPages], and every page reached is served with at most ten selected campaigns |
| Paging.OrDefault | src/backend/controllers/campaignController.js:90-91 | `parseInt(x) \|\| d` is x or d, and never 0 for a non-zero default |
| Paging.IfMissing | src/backend/controllers/adminController.js:165-171 | a destructuring default keeps any given number, 0 included; only an absent value takes the default |
| Paging.CeilDiv | src/backend/controllers/campaignController.js:116 | pages = ceil(total/limit) is the least number of pages of that size holding every item; 0 exactly when there are no items |
| Paging.Window | src/backend/controllers/campaignController.js:104-107 | `skip(k).limit(l)` returns at most l items, the consecutive ones from index k |
| Paging.PaginateProperties | src/backend/controllers/campaignController.js:90-116 | a page holds the items from (page−1)·limit on, at most limit of them; total counts the whole result; the page is empty exactly past the last page |
| Paging.SortedPageProperties | src/backend/controllers/donorController.js:99-103 | a page of a sorted result always exists for page ≥ 1 and limit > 0, holds input items only, and is itself in descending order |
| Paging.PagesCoverResult | src/backend/controllers/campaignController.js:90-116 | walking pages 1..pages visits every item once, in order |
| Sorting.SortDesc | src/backend/controllers/campaignController.js:104-105 | `sort` returns a permutation of its input in descending key order |
| Sorting.TopByKeyProperties | src/backend/controllers/campaignController.js:257-259 | `sort().limit(n)` returns min(n, size) items, descending, drawn from the input without repetition, and all of it when it fits |
| Sorting.TopByKeyComplete | src/backend/controllers/campaignController.js:257-259 | nothing with a key greater than the last returned item is left out |
| Text.TrimProperties | src/backend/models/Donor.js:14 | a trimmed string has no outer whitespace, is part of the input, and is empty exactly for an all-blank input |
| Text.TrimIdempotent | src/backend/models/Campaign.js:7 | the trim setter applied to a trimmed value changes nothing |
| Text.TrimLowerIsNormal | src/backend/models/Donor.js:13-14 | the lowercase and trim setters leave nothing for a second pass |
| Text.SplitJoin | src/backend/middleware/auth.js:11 | splitting pieces joined by a character they lack gives back the pieces |
| Text.JoinSplit | src/pages/CampaignTracking.tsx:265-268 | joining the parts of a split restores the string |

## Left out

- Money is in whole units. Amounts, goals and totals are integers. Fractional amounts and floating-point arithmetic are not modelled: the `averageAmount` figure of `Donor.getStatistics` (`$avg`, `$round`) and `Intl.NumberFormat` and date formatting on the pages. The CSV date formatter is a function parameter.
- CampaignModel.RoundedPercent: rounds the exact ratio, where the source rounds the double `(collected / goal) * 100`. At some exact-half ratios the double lands just below .5 and rounds down, so the model's figure is one higher: 57 of 200 gives 28 in the source and 29 here, as do 69 of 120 and 29 of 200. `CampaignModel.PercentageCompleted`, `DonorController.Summary` and the tracking page's progress bar inherit this. Their bounds, monotonicity and the 100% threshold hold of the double computation too.
- Sorting.SortDesc: equal keys keep their stored order (a stable sort). MongoDB leaves the order of equal keys unspecified: donations with the same `date`, campaigns with the same `donorCount`, `goal` or start date. Specifications that state a listing exactly (the all-donations and all-campaigns listings, the admin pages, the newest-first and top-donor lists) fix this one legal order among several.
- Query numbers are `Option<int>`. In the public listings (`parseInt(x) || d`) a value `parseInt` cannot read is `None`, which falls back to the default as NaN does there. Hexadecimal, exponent and fractional strings in casts are treated as NaN. `CampaignController.CastNumber` accepts only optionally signed decimal digits.
- AdminController.AdminPage: a page or limit that is given but that `parseInt` cannot read (`?page=abc`) is not modelled; in the admin listings `None` stands only for an absent value. The destructuring default does not apply to such a value, so the source passes a NaN skip (and, for an unreadable limit, a NaN limit) to MongoDB; if the query is served, the answer has `page` as null, and `pages` too for an unreadable limit. What MongoDB does with a NaN is outside the source. `AdminController.AdminPageEnvelope`, `AdminController.AllDonorsPage` and `AdminController.AdminCampaignsPage` state the absent and numeric cases only.
- Case folding is ASCII only, and regular expressions are not modelled. MongoDB `$regex` with option `i` is an ASCII case-insensitive substring test; so is `CampaignTracking.SearchMatches` (`toLowerCase().includes`, src/pages/CampaignTracking.tsx:158-166). The schemas' `lowercase` setters fold A to Z only: the donor e-mail (src/backend/models/Donor.js:13) and the campaign category and creator e-mail (src/backend/models/Campaign.js:23, 68). Unicode case folding and regex metacharacters in a search term are not modelled.
- Mongoose ObjectIds are natural numbers. A malformed id, which makes `findById` throw a cast error (500), is not modelled; every id is well-formed.
- `populate(...)` joins (campaign titles, approver names) are left out. Listings carry the referenced id only.
- JSON Web Tokens (RFC 7519), password hashing and `comparePassword` are function parameters. The Admin model file is not part of this model, so its hooks and methods are these parameters.
- Wall-clock time is the parameter `now`. The random part of the transaction id (`Date.now()` plus `Math.random()`) is a caller-supplied fresh string. Uniqueness of transaction ids is assumed, not enforced.
- A campaign's end date is now + duration × 86 400 000 ms. `setDate` across a daylight-saving change can differ by an hour; this is not modelled.
- Concurrency is left out. Each handler runs alone: the race between the donation post-save hook and the controller's stale save is not modelled. The single-threaded order of those two saves is.
- Framework plumbing is left out: express-validator's rules (the `invalid` flag), route wiring, and the response JSON envelope (`success` flags, `error.message`).
- `getDashboardSummary` is not modelled (src/backend/controllers/adminController.js:82-158). Its figures reuse `getStatistics` of both models. Its 30-day series needs calendar dates.
- `getAdminProfile` is not modelled (src/backend/controllers/adminController.js:397-414). It is a `findById` behind `protect`, and `Auth.FindById` covers it.
- `getDonationById` is not modelled (src/backend/controllers/donorController.js:129-153). It is a lookup with 404, and `CampaignController.CampaignById` models the same shape.
- `Campaign.getActiveCampaigns` is not modelled (src/backend/models/Campaign.js:158-164). No handler calls it.
- Null paths are not modelled: null `status`, `isUrgent` and `documents` values in update bodies. `Value.Null` only covers the paths that accept it. JSON object values in update bodies are not modelled.
- Unknown body fields are not modelled, for example `campaignTitle` in `createDonation`. Mongoose's strict mode drops them.
- Page UI state is not modelled: the loading flags, toasts, session expiry and per-campaign CSV export on the tracking page. The donor cache and the expand/collapse state are modelled.
- DonorController.CreateDonation: the amount is `Number(amount)` of a JSON number. String amounts in the body are not modelled.
- DonorController.CreateDonation: its answer reads the defined `percentageCompleted` virtual (`Summary`), not `progressPercentage` as written (Findings row 3; `SummaryAsWritten` is the answer as written). The hook it runs is the guarded one (Findings row 2; `Store.HookOutcomeAsWritten` is the hook as written).
- Store.Database.InsertDonation: runs the guarded post-save hook, which credits only the insert (Findings row 2). Store.Database.CreditCampaign is that guarded hook, and `Store.HookOutcomeAsWritten` is the hook as written.
- CampaignModel.NewCampaignSave: states the save with the hooks before the validators, the corrected order of Findings row 1. In Mongoose's order no new campaign is saved (`CampaignModel.AsWrittenRejectsNewCampaigns`).
- CampaignModel.SaveSetsEndDateOnce: states the save with the hooks before the validators, as `NewCampaignSave` does (Findings row 1). For a stored campaign the two orders agree (`CampaignModel.ResaveEitherOrder`).
- CampaignModel.CampaignDoc.Save: the validation order is the parameter `validateFirst`. True is Mongoose's order, as written; false is the corrected order of Findings row 1.
- CampaignController.CreateCampaign: the validation order is the parameter `validateFirst`. True gives `CreateCampaignAsWritten`, which never creates a campaign; false gives the corrected `CreateCampaignSpec`.
- DonorModel.TopDonorsProperties: a non-positive limit makes MongoDB reject `$limit`. That case is modelled as `None` but not stated further.
- CampaignController.UpdateCampaign: the order in which Mongoose reports several cast errors is not modelled. Any refused field gives the same 500.

## Findings

| source | as written | input that shows it | evidently intended | confidence | as-written member | corrected member |
|---|---|---|---|---|---|---|
| src/backend/models/Campaign.js:39-42 | `endDate` is required, and Mongoose validates before the schema's own pre-save hooks; the end-date hook (127-134) therefore runs too late, and `createCampaign` answers 500 for every complete body | any complete, valid body to `POST /api/campaigns` | the end-date hook runs before validation, so a new campaign is created with end date now + duration days | not executed | CampaignController.CreateCampaignAsWrittenNeverCreates | CampaignController.CreateCampaignOutcomes |
| src/backend/models/Donor.js:92-106 | the post-save hook has no `isNew` guard, so every later save of a completed donation credits its campaign again | save a stored completed donation a second time (for example to set `receiptSent`) | credit only the save that inserts the donation | not executed | Store.ResaveCreditsTwice | Store.HookOutcomeCredits |
| src/backend/controllers/donorController.js:69 | reads `campaign.progressPercentage`, a virtual the schema does not define, so the answer has no progress figure | any successful donation to a campaign with goal ≥ 100 | report the `percentageCompleted` virtual | not executed | DonorController.SummaryAsWrittenHasNoProgress | DonorController.SummaryReportsProgress |
| src/backend/controllers/adminController.js:55 | `generateToken` is imported from the auth middleware, which does not export it; a correct login stamps `lastLogin`, then throws and answers 500 | the right e-mail and password of an active admin | sign and return a token | not executed | AdminController.LoginAsWrittenFails | AdminController.LoginSucceeds |
| src/pages/AdminDashboard.tsx:77-81 | the donors fetch sends no status, so the server keeps its 'completed' default and the 'pending' and 'failed' filters always show an empty table | a recorded pending donation, with the status filter set to 'pending' | send the chosen status with the fetch | not executed | AdminDashboard.AsWrittenHidesOtherStatuses | AdminDashboard.SendingStatusShowsIt |
