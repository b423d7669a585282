# Proforma workflow store, in Dafny

This project models the client-side core of the proforma workflow application (`webstax-admin/proforma-nexus`). That core has four parts:

- **The domain store** (`src/store/app-state.tsx`). It holds three tables: credentials, companies and applicants. It also holds `currentUserId`, the id of the logged-in credential, and a pure reducer changes all of these.
- **The provider commands** built on that reducer: log in, log out, create a company, create an applicant, the five field updates, and the rehydration repair.
- **The route guard** (`RequireAuth`), together with the route table of `src/App.tsx`.
- **The analytics event log** (`src/lib/analytics.ts`), plus the decision logic of the pages that drive all of the above: login, admin dashboard, company dashboard, the applicant's Proforma 1 page and the analytics page.

The model takes the source's own shape:

- The reducer, `slugify`, the guard and the analytics computations are pure functions.
- The provider is the class `Provider.Store`. Its methods replace its `state` field through `AppState.Reduce`, the way `dispatch` does. `createApplicant` is two successive reducer steps, the second built from the company record read before the call.
- The event log is the class `Analytics.EventLog`, whose `events` field its methods reassign.
- The login, admin, company and Proforma 1 pages are classes holding the page's local fields. Their handlers are methods that call the store and the log.
- The analytics page only filters and counts. It has no handler that changes the store or the log, so it is pure functions of the event log and a `Filters` value that holds its five selections.
- Random ids, the random four-digit suffix, the random password and the clock are method parameters.

Modules, one per file:

| file | module | source |
|---|---|---|
| prelude.dfy | `Prelude` | JavaScript truthiness, `trim`, array helpers (`filter`, `new Set`) |
| slug.dfy | `Slug` | `slugify`, the numeric suffix, generated usernames |
| state.dfy | `AppState` | types, `reducer`, bootstrap state, admin repair, command effects |
| store.dfy | `Provider` | the provider object and its commands |
| auth.dfy | `Auth` | `RequireAuth` and the route table |
| event_log.dfy | `Analytics` | `recordEvent`, `getEvents`, `clearEvents`, `readAll` |
| login_page.dfy | `LoginPage` | `src/pages/Index.tsx` |
| admin_dashboard.dfy | `AdminDashboard` | `src/pages/AdminDashboard.tsx` |
| company_dashboard.dfy | `CompanyDashboard` | `src/pages/CompanyDashboard.tsx` |
| proforma1_page.dfy | `Proforma1Page` | `src/pages/proformas/Proforma1Applicant.tsx` |
| analytics_page.dfy | `AnalyticsPage` | `src/pages/Analytics.tsx` |

`AppState.Consistent` is the cross-record invariant. It requires that every record be stored under its own id. It also requires that `Company.applicants` and `Applicant.companyId` agree in both directions, with no id listed twice. An applicant whose company does not exist is allowed, because the code creates such applicants (see below).

Where the written design and the code differ, the model follows the code:

- The design states that every applicant's `companyId` names an existing company. The code's `createApplicant` on an unknown company creates the applicant anyway and links it nowhere. `AppState.CreateApplicantOrphan` states that behaviour, and `Consistent` admits such orphans.
- The design describes `createApplicant` as one atomic transition. The code dispatches twice, and the links disagree in between (`AppState.FirstStepBreaksLinks`). The links agree again after the command (`AppState.CreateApplicantKeepsConsistent`).
- The route table of `src/App.tsx` (lines 27-61) has no route for the Proforma 1 page or the analytics page. The "Open Proforma 1/2" links of the dashboards therefore land on `NotFound`. `Proforma1Page` and `AnalyticsPage` model those pages' logic as written, but the app as routed never reaches it, and `Auth.ProformaLinksNotFound` states that `Auth.MatchPath` sends the links' paths to `NotFoundPage`.
- The design says rehydration can clear the session. The code's repair only adds the default admin when it is missing and keeps the stored `currentUserId` as it is (`AppState.RepairAdminSpec`).

## Model

| member | source | states |
|---|---|---|
| Prelude.Trim | src/pages/Index.tsx:19 | `trim` drops the leading whitespace, then a run of trailing whitespace and nothing else, leaving no whitespace at either end. |
| Prelude.BlankIffAllWhitespace | src/pages/proformas/Proforma1Applicant.tsx:31 | `!s.trim()` holds exactly when every character of `s` is whitespace. |
| Prelude.Filter | src/pages/AdminDashboard.tsx:39 | `filter` keeps exactly the elements satisfying the predicate, each as many times as it occurs, in their original order. |
| Prelude.Distinct | src/pages/Analytics.tsx:29 | `Array.from(new Set(xs))` has each element of `xs` exactly once and nothing else, in the order of their first occurrences in `xs`. |
| Slug.Lower | src/store/app-state.tsx:59 | Lower-casing turns each upper-case ASCII letter into its lower-case letter and keeps every other character in place. |
| Slug.Collapse | src/store/app-state.tsx:59 | The first replace leaves only `[a-z0-9-]` with no two hyphens in a row, and is empty only for empty input. |
| Slug.Slugify | src/store/app-state.tsx:58-60 | The output uses only `[a-z0-9-]`, never has two hyphens in a row, and neither starts nor ends with a hyphen. |
| Slug.CollapseFixesCollapsed | src/store/app-state.tsx:59 | A string already in collapsed form is left unchanged by the first replace. |
| Slug.SlugifyFixpoint | src/store/app-state.tsx:58-60 | `slugify(t) == t` exactly when `t` is a slug. |
| Slug.SlugifyIdempotent | src/store/app-state.tsx:58-60 | `slugify(slugify(s)) == slugify(s)`. |
| Slug.DecimalString | src/store/app-state.tsx:197 | A number prints as a non-empty string of digits with no leading zero. |
| Slug.DecimalRoundTrip | src/store/app-state.tsx:197 | Reading the printed digits back gives the number. |
| Slug.SuffixHasFourDigits | src/store/app-state.tsx:197 | A suffix from `Math.floor(1000 + Math.random() * 9000)` prints as exactly four digits. |
| Slug.UsernameRoundTrip | src/store/app-state.tsx:197 | A generated username is the prefix, then the slug, then `-`, then four digits, and each part can be read back. |
| AppState.Reduce | src/store/app-state.tsx:80-130 | Only LOGIN, LOGOUT and SET_STATE change `currentUserId`, and no command except SET_STATE removes a key from any table. |
| AppState.CurrentUser | src/store/app-state.tsx:179 | The current user is the stored credential that `currentUserId` names, and there is none when `currentUserId` is absent or empty. |
| AppState.LoginSetsCurrentUser | src/store/app-state.tsx:82-83 | LOGIN of a stored, non-empty id makes that credential current and changes nothing else. |
| AppState.LogoutIdempotent | src/store/app-state.tsx:84-85 | LOGOUT leaves nobody logged in, changes nothing else, and a second LOGOUT is a no-op. |
| AppState.DefaultStateBootstrap | src/store/app-state.tsx:66-78 | The startup state holds only the admin "aarnav", no companies or applicants and no session. It is consistent, and the admin can log in. |
| AppState.RepairAdminSpec | src/store/app-state.tsx:158-165 | After repair the admin exists. A state that had the admin is kept unchanged; otherwise only the default admin is added. Repairing twice equals repairing once. |
| AppState.UnknownTargetIsNoOp | src/store/app-state.tsx:102-126 | The five targeted commands on an unknown id return the state unchanged. |
| AppState.SaveProforma2Frame | src/store/app-state.tsx:102-106 | SAVE_PROFORMA2 on a known company changes only that company's `proforma2`. |
| AppState.SaveProforma1Frame | src/store/app-state.tsx:107-111 | SAVE_PROFORMA1 on a known applicant changes only that applicant's `proforma1`. |
| AppState.SubmitFrame | src/store/app-state.tsx:112-116 | SUBMIT_PROFORMA1 on a known applicant sets only its `submitted` flag. |
| AppState.ApproveFrame | src/store/app-state.tsx:117-121 | APPROVE_APPLICANT sets only `approved`, without requiring `submitted`, so a draft can end up approved. |
| AppState.SetDocumentKitFrame | src/store/app-state.tsx:122-126 | SET_DOCUMENT_KIT on a known applicant changes only its `documents`. |
| AppState.TargetedKeepsConsistent | src/store/app-state.tsx:102-126 | The targeted commands keep a consistent state consistent. |
| AppState.SubmitIdempotent | src/store/app-state.tsx:112-116 | Submitting twice equals submitting once. |
| AppState.KitReplaces | src/store/app-state.tsx:122-126 | A second kit replaces the first wholesale, with no merge and no de-duplication. |
| AppState.FlagsMonotone | src/store/app-state.tsx:95-126 | `submitted` and `approved` never go back to false, except through SET_STATE or an UPSERT_APPLICANT that overwrites that same record; an upsert of any other applicant leaves them alone. |
| AppState.UpsertCanResetFlags | src/store/app-state.tsx:95-101 | An UPSERT_APPLICANT that overwrites an existing applicant can clear both flags. |
| AppState.CreateCompanyRecords | src/store/app-state.tsx:194-203 | `createCompany` adds exactly one empty company and one credential, cross-linked to each other, and keeps every other record and the session. |
| AppState.CreateCompanyLogin | src/store/app-state.tsx:197-202 | The company username is `fc-<slug>-<n>`, and the returned username and password log in. When no earlier credential had that pair, the new company credential is the only one that matches it. |
| AppState.CreatedCompanyOnlyMatch | src/store/app-state.tsx:194-202 | When no stored credential had the pair, the new company credential is the only one matching it after `createCompany`. |
| AppState.CreateCompanyKeepsConsistent | src/store/app-state.tsx:194-203 | `createCompany` with a fresh id keeps the state consistent. |
| AppState.CreateApplicantSteps | src/store/app-state.tsx:205-218 | Across both dispatches only one applicant and one credential are written; the second step re-sends the same credential and leaves the session alone. |
| AppState.CreateApplicantDraft | src/store/app-state.tsx:211-212 | The new applicant is a Draft under the given company: empty text, no flags, no documents, and its own credential. |
| AppState.CreateApplicantCredential | src/store/app-state.tsx:210-217 | Exactly one credential is added, of role applicant, linked to the new applicant. |
| AppState.CreateApplicantLogin | src/store/app-state.tsx:208-210 | The applicant username is `ap-<slug>-<n>`, and the returned username and password log in. When no earlier credential had that pair, the new applicant credential is the only one that matches it. |
| AppState.CreatedApplicantOnlyMatch | src/store/app-state.tsx:205-219 | When no stored credential had the pair, the new applicant credential is the only one matching it after `createApplicant`. |
| AppState.CreateApplicantAppends | src/store/app-state.tsx:214-218 | On an existing company, the second dispatch appends the id to the company's earlier list and changes no other company. |
| AppState.AddLinkedApplicant | src/store/app-state.tsx:212-217 | Adding an applicant and appending its id to its company's list keeps consistency, and the id then appears exactly once. |
| AppState.CreateApplicantLinks | src/store/app-state.tsx:205-220 | On an existing company, the new id appears in the company's list exactly once, and consistency holds after the command. |
| AppState.CreateApplicantKeepsConsistent | src/store/app-state.tsx:205-220 | `createApplicant` with a fresh applicant id keeps a consistent state consistent, whether or not the company exists. |
| AppState.CreateApplicantOrphan | src/store/app-state.tsx:214-215 | On an unknown company, the applicant is created but listed by no company, and no company changes. |
| AppState.FirstStepBreaksLinks | src/store/app-state.tsx:212-217 | Between the two dispatches the state is not linked. |
| Provider.FindCredential | src/store/app-state.tsx:182-184 | The scan returns a credential matching both fields exactly, or reports that none matches. |
| Provider.Store.constructor | src/store/app-state.tsx:150 | The provider starts in the default state. |
| Provider.Store.Dispatch | src/store/app-state.tsx:150 | `dispatch` replaces the state by the reducer's result. |
| Provider.Store.Rehydrate | src/store/app-state.tsx:153-172 | A parsed stored state replaces the current one after the admin repair; a missing or unparsable one changes nothing. |
| Provider.Store.Login | src/store/app-state.tsx:181-190 | Succeeds exactly when some credential matches both fields; then that credential's id becomes current and its role and `linkedId` are returned. On failure nothing changes. |
| Provider.LoginAsCreatedCompany | src/store/app-state.tsx:181-202 | Logging in with the pair `createCompany` returned, when no earlier credential had it, gives role `company` and the new company's id, and makes the new credential current. |
| Provider.LoginAsCreatedApplicant | src/store/app-state.tsx:181-219 | Logging in with the pair `createApplicant` issued, when no earlier credential had it, gives role `applicant` and the new applicant's id, and makes the new credential current. |
| Provider.Store.Logout | src/store/app-state.tsx:192 | Nobody is logged in afterwards. |
| Provider.Store.CreateCompany | src/store/app-state.tsx:194-203 | The new state is the single UPSERT_COMPANY of `AppState.AfterCreateCompany`, and the result is the generated username, the password and the company id. |
| Provider.Store.CreateApplicant | src/store/app-state.tsx:205-220 | The new state is the two-step effect of `AppState.AfterCreateApplicant`, built from the company record read before the first dispatch, and the result is the generated username, the password and the applicant id. |
| Provider.Store.SaveProforma2 | src/store/app-state.tsx:222 | Dispatches SAVE_PROFORMA2. |
| Provider.Store.SaveProforma1 | src/store/app-state.tsx:223 | Dispatches SAVE_PROFORMA1. |
| Provider.Store.SubmitProforma1 | src/store/app-state.tsx:224 | Dispatches SUBMIT_PROFORMA1. |
| Provider.Store.ApproveApplicant | src/store/app-state.tsx:225 | Dispatches APPROVE_APPLICANT. |
| Provider.Store.SetDocumentKit | src/store/app-state.tsx:226 | Dispatches SET_DOCUMENT_KIT. |
| Auth.RequireAuthSpec | src/components/auth/RequireAuth.tsx:16-28 | Only a visitor with no user is sent back with the location. Render happens exactly when a user exists, the role fits, and no truthy `linkedId` contradicts a truthy `:id`. |
| Auth.JoinSplit | src/App.tsx:27-61 | Splitting a path at slashes loses nothing: joining the segments gives it back. |
| Auth.MatchAdminPath | src/App.tsx:28-35 | "/admin" selects the admin dashboard. |
| Auth.MatchCompanyPath | src/App.tsx:36-43 | `/company/<id>` selects the company page with `id` as its parameter. |
| Auth.MatchApplicantPath | src/App.tsx:44-51 | `/applicant/<id>` selects the applicant dashboard with `id` as its parameter. |
| Auth.MatchApplicantDocumentsPath | src/App.tsx:52-59 | `/applicant/<id>/documents` selects the documents page with `id` as its parameter. |
| Auth.ProformaLinksNotFound | src/App.tsx:27-61 | The dashboards' `/applicant/<id>/proforma-1` and `/company/<id>/proforma-2` links match no route of the table and reach `NotFound`. |
| Auth.ThreeSegmentsNotFound | src/App.tsx:27-61 | A path of three segments whose last is not `documents` matches only the catch-all route. |
| Auth.AdminPageAccess | src/App.tsx:28-35 | The admin dashboard renders exactly for a logged-in admin. |
| Auth.CompanyPageAccess | src/App.tsx:36-43 | A company page renders exactly for a company user whose `linkedId` is that id or is absent or empty. |
| Auth.ApplicantPagesAccess | src/App.tsx:44-59 | Both applicant pages render exactly for an applicant user whose `linkedId` is that id or is absent or empty. |
| Auth.GuestRemembersLocation | src/components/auth/RequireAuth.tsx:16-18 | With no user, every guarded page redirects to "/" carrying the attempted path. |
| Auth.ApplicantFortyTwo | src/components/auth/RequireAuth.tsx:20-26 | An applicant linked to "42" sees `/applicant/42` and its documents page, and is turned away from `/applicant/43` and from a company page. |
| Analytics.ReadAll | src/lib/analytics.ts:31-38 | A missing or unparsable store reads as the empty list. |
| Analytics.Complete | src/lib/analytics.ts:46 | The stored event has the new id and the caller's timestamp, or the current time when none was given; every other field is as the caller gave it. |
| Analytics.AfterRecordsNewestFirst | src/lib/analytics.ts:44-48 | Events recorded one after another come out newest first, in front of the older events, which keep their order. |
| Analytics.EventLog.constructor | src/lib/analytics.ts:31-38 | The log starts as what `readAll` returns. |
| Analytics.EventLog.RecordEvent | src/lib/analytics.ts:44-48 | The new log is the completed event followed by the old log, one longer. |
| Analytics.EventLog.GetEvents | src/lib/analytics.ts:50-52 | Returns the log. |
| Analytics.EventLog.ClearEvents | src/lib/analytics.ts:54-56 | The log is empty afterwards. |
| Analytics.RecordTwice | src/lib/analytics.ts:44-52 | After recording E1 then E2, `getEvents()` is `[E2, E1]` followed by the old log. |
| Analytics.ClearThenGet | src/lib/analytics.ts:50-56 | After `clearEvents`, `getEvents()` returns the empty list. |
| LoginPage.Destination | src/pages/Index.tsx:24-35 | An admin goes to "/admin". A company goes to `/company/<linkedId>` and an applicant to `/applicant/<linkedId>`, but only when the `linkedId` is truthy. A failed login goes nowhere. |
| LoginPage.LoginEvent | src/pages/Index.tsx:24-35 | A `login_success` event with the user's role is recorded exactly when the login navigates. It names the `linkedId` as its company for a company user and as its applicant for an applicant user, and names neither for the admin. |
| LoginPage.LoginForm.OnSubmit | src/pages/Index.tsx:17-36 | Logs in with the trimmed fields. A failure changes nothing and records nothing. A success records the role's event and navigates to the role's page. |
| LoginPage.LoginForm.AfterLogin | src/pages/Index.tsx:24-35 | After a successful login, the role's event is recorded and the page picked exactly as `Destination` and `LoginEvent` say. |
| LoginPage.DestinationRoute | src/pages/Index.tsx:24-35 | The route table matches a login's destination to the guarded page of the credential's role: the admin dashboard, or the company or applicant page whose `:id` is the `linkedId`. |
| LoginPage.DestinationAdmitted | src/pages/Index.tsx:24-35 | The page a successful login navigates to is wrapped in `RequireAuth`, and that guard lets the credential that just logged in through. |
| LoginPage.EmptyIdLoginIsLost | src/store/app-state.tsx:179 | A credential stored under the empty id logs in, but nobody becomes current, so the guard sends the visitor back. |
| AdminDashboard.Picked | src/pages/AdminDashboard.tsx:12-19 | The picked kit is the ticked documents in fixed order, without duplicates. |
| AdminDashboard.ToggleFlipsOne | src/pages/AdminDashboard.tsx:36 | Toggling flips one flag and keeps the others; toggling twice restores every flag. |
| AdminDashboard.Pending | src/pages/AdminDashboard.tsx:34 | The pending list is exactly the applicants that are submitted and not approved. |
| AdminDashboard.ApprovedSpec | src/pages/AdminDashboard.tsx:44-45 | Approval marks the applicant approved with the kit as its documents, touches nothing else, takes it off the pending list and keeps consistency. |
| AdminDashboard.SubmitMakesPending | src/pages/AdminDashboard.tsx:34 | A submission puts a known, unapproved applicant on the pending list. |
| AdminDashboard.AdminPanel.ToggleDoc | src/pages/AdminDashboard.tsx:36 | The selection becomes its toggled form. |
| AdminDashboard.AdminPanel.OnApprove | src/pages/AdminDashboard.tsx:38-48 | With nothing ticked nothing happens. Otherwise the applicant is approved with the ticked kit and the ticks are cleared. |
| AdminDashboard.AdminPanel.OnCreateCompany | src/pages/AdminDashboard.tsx:26-32 | A blank name does nothing. Otherwise the company is created under the trimmed name and the field is cleared. |
| CompanyDashboard.FindCompany | src/pages/CompanyDashboard.tsx:16 | The company is found exactly when the parameter is truthy and names a stored company. |
| CompanyDashboard.StatusLabelCases | src/pages/CompanyDashboard.tsx:96 | "Approved" whenever approved; "Submitted (Pending)" exactly when submitted and not approved; "Draft" otherwise. |
| CompanyDashboard.PendingLabelAgrees | src/pages/CompanyDashboard.tsx:96 | "Submitted (Pending)" is shown exactly for the applicants on the admin's pending list. |
| CompanyDashboard.ListedSpec | src/pages/CompanyDashboard.tsx:36 | The listing is the records of the ids that have one, in list order; ids without a record are dropped. |
| CompanyDashboard.ListedWhenConsistent | src/pages/CompanyDashboard.tsx:36 | In a consistent state nothing is dropped, and every listed applicant belongs to the company. |
| CompanyDashboard.CompanyPanel.OnSaveProforma | src/pages/CompanyDashboard.tsx:22-25 | Saves the text as the shown company's Proforma 2; with no company shown nothing happens. |
| CompanyDashboard.CompanyPanel.OnCreateApplicant | src/pages/CompanyDashboard.tsx:27-34 | A blank name or unknown company does nothing. Otherwise it creates the applicant under the trimmed name, records `applicant_created` with both ids and clears the field. |
| CompanyDashboard.CreatedApplicantListed | src/pages/CompanyDashboard.tsx:30-36 | The new applicant appears once, at the end of the company's listing, labelled "Draft". |
| Proforma1Page.FindApplicant | src/pages/proformas/Proforma1Applicant.tsx:15 | The applicant is found exactly when the parameter is truthy and names a stored applicant. |
| Proforma1Page.Proforma1Form.constructor | src/pages/proformas/Proforma1Applicant.tsx:16 | The draft starts as the stored text, or empty. |
| Proforma1Page.Proforma1Form.Edit | src/pages/proformas/Proforma1Applicant.tsx:57 | Typing changes the draft only while the editor is enabled. |
| Proforma1Page.Proforma1Form.SyncDraft | src/pages/proformas/Proforma1Applicant.tsx:18-20 | The effect resets the draft to the stored text. |
| Proforma1Page.Proforma1Form.OnSave | src/pages/proformas/Proforma1Applicant.tsx:24-28 | While editable, stores the draft wholesale and records `proforma1_saved`; otherwise nothing happens. |
| Proforma1Page.Proforma1Form.OnSubmit | src/pages/proformas/Proforma1Applicant.tsx:30-35 | A blank draft is refused. Otherwise the applicant is submitted and `proforma1_submitted` recorded, and the draft is not saved. |
| Proforma1Page.SubmitClosesPage | src/pages/proformas/Proforma1Applicant.tsx:37-66 | After a submission the page is read-only, and the stored text is unchanged. |
| Proforma1Page.SubmitKeepsBlankText | src/pages/proformas/Proforma1Applicant.tsx:31-33 | Submitting saves nothing, so an applicant that never saved ends up submitted with empty text. |
| AnalyticsPage.IntStringNotAll | src/pages/Analytics.tsx:34-35 | No month or year string is "all". |
| AnalyticsPage.Filtered | src/pages/Analytics.tsx:31-41 | `filtered` keeps exactly the events passing all five filters, each as often as it occurs in the log, in log order. |
| AnalyticsPage.NoFiltersKeepAll | src/pages/Analytics.tsx:34-39 | With every filter at "all", `filtered` is the whole log. |
| AnalyticsPage.CompanyFilterExact | src/pages/Analytics.tsx:36 | With a company selected, every kept event has that company, so events without one are dropped. |
| AnalyticsPage.TypeNames | src/pages/Analytics.tsx:29 | Position by position, the type names of the events. |
| AnalyticsPage.TypeNameNotAll | src/lib/analytics.ts:3-11 | No event type is named "all". |
| AnalyticsPage.TypeOptionsSpec | src/pages/Analytics.tsx:29 | The type options are "all", then each occurring type exactly once. |
| AnalyticsPage.BeforeTotal | src/pages/Analytics.tsx:26 | Of two different strings, one sorts before the other. |
| AnalyticsPage.Insert | src/pages/Analytics.tsx:26 | Insertion into a sorted list keeps it sorted and adds exactly that element. |
| AnalyticsPage.Sort | src/pages/Analytics.tsx:26 | `sort()` yields a sorted rearrangement of its input. |
| AnalyticsPage.YearOptionsSpec | src/pages/Analytics.tsx:23-27 | The year options are "all", then the log's years, each once, in sorted order. |
| AnalyticsPage.BumpSpec | src/pages/Analytics.tsx:45 | One tally step adds one to that type's bar, appending a new bar for a new type. |
| AnalyticsPage.TallyTypes | src/pages/Analytics.tsx:43-47 | The bars name the distinct types in order of first occurrence. |
| AnalyticsPage.TallyCounts | src/pages/Analytics.tsx:43-47 | A type's bar counts that type's occurrences. |
| AnalyticsPage.TallyTotal | src/pages/Analytics.tsx:43-47 | The counts add up to the number of events tallied. |
| AnalyticsPage.BarDataSpec | src/pages/Analytics.tsx:43-47 | `barData` has one bar per type among the filtered events, in first-occurrence order, each counting that type (at least one); the counts sum to the number of filtered events. |

## Left out

- Persistence: the stored JSON text, `JSON.stringify`/`JSON.parse` and the persist effect are not modelled. Stored data is represented by what parsing yields: missing, unparsable, or a parsed value. A parsed value of the wrong shape is not modelled.
- Randomness and the clock: `uid`, `randomPassword`, the four-digit suffix and `Date.now` are parameters. The suffix lies in 1000..9999, and the password's alphabet and length are required of the caller by `Slug.IsGeneratedPassword`. Fresh ids are premises of the lemmas, not guarantees.
- Inherited keys: the tables are plain JavaScript objects, so `state.companies[id]` also finds members inherited from `Object.prototype`. The model's tables are maps without inherited keys. An id that names such a member ("constructor", "toString", "__proto__", …) therefore behaves as unknown in the model but not in the source. This affects `AppState.Reduce`, `AppState.UnknownTargetIsNoOp`, `AppState.CurrentUser`, `CompanyDashboard.FindCompany` and `Proforma1Page.FindApplicant`. For example, in the source `saveProforma2("toString", "x")` stores a record under the key "undefined", while in the model it is a no-op. Generated ids never take these values.
- Provider.Store.Login: the source returns the first matching credential in insertion order. The model scans the keys in an unspecified order, so it promises only that some matching credential is chosen.
- AdminDashboard.Pending: a set of ids, not the array in insertion order that the source renders.
- `toLowerCase` in `slugify` is modelled for ASCII letters only; other characters are kept as they are.
- AnalyticsPage.Sort: JavaScript sorts by UTF-16 code units, and the model compares characters. The two agree on the year strings, which are ASCII. `Sorted` is stated for adjacent entries.
- The month and year of a timestamp depend on the local time zone. They are the two functions of `AnalyticsPage.Calendar`.
- The model matches routes case-sensitively, without a trailing slash and without decoding percent-escapes; React Router ignores case, accepts a trailing slash and decodes percent-escapes. `Auth.MatchPath` covers exactly the five routes and the catch-all of `src/App.tsx`.
- In `recordEvent`, an argument carrying an explicit `timestamp: undefined` overrides the default time because of the spread order. The model's `EventInput` cannot express that, and the optional `meta` field is omitted.
- React's render cycle: effects, re-render timing and several commands issued within one render are not modelled. Commands run one after the other. The Proforma 1 draft re-sync is the explicit method `SyncDraft`.
- `getAllCredentials`, the credential table on the admin dashboard, the input fields' change handlers and all JSX, toasts, page titles and charts are presentation only. The fields are plain fields of the page classes.
- CompanyDashboard.CompanyPanel.OnSaveProforma: `onSaveProforma` (src/pages/CompanyDashboard.tsx:22) is defined but no element of the page calls it, so the action cannot be reached from the page. The model keeps the handler as written.
- The pages `ApplicantDashboard`, `ApplicantDocuments` and `NotFound` hold no decision logic, and they are not part of this model beyond their routes. `Proforma2Company` and the placeholder admin proformas have no route and no decision logic, and they are not part of this model.
