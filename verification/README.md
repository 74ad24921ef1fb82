# Time-bank portal: a verified model of its business rules

The portal keeps a bank of hours for each collaborator:

- administrators post time entries that move a collaborator's balance;
- collaborators sign in with a badge and an access code, and ask for leave or for a new code;
- administrators define the current time-bank period, publish an announcement, manage up to five information banners and send notifications.

This project models the route handlers that hold these rules, plus the client components with business logic: the banner carousel, the countdown to the end of the period, and parts of the collaborator dashboard, the banner admin page and the change-access-code page.

Each database table is a `seq` field of the class `Schema.Db`, and the session cookie is the class `Schema.SessionCookie`. Each handler is a method that runs the source's guards in the source's order:

1. session (401);
2. permission (403);
3. required fields (400);
4. lookups and conflicts (404, 409, 400).

The method returns the HTTP status and changes only the tables named in its `modifies` clause, and only on success. Its postcondition gives the status for every input and the whole new state of those tables.

`Db.Valid()` states the unique constraints the tables enforce:

- collaborators: id, badge and non-empty access code;
- administrators: id and username;
- banners: display position.

Several handlers keep further invariants:

- at most one pending reset request per collaborator;
- every period starts before it ends, and at most one period is active as long as each definition's bulk deactivation succeeds;
- at most five banners, each positioned in 1..5, for a table that held this before the banner POST (the banner PUT, not part of this model, can store position 0).

Lemmas relate operations to each other: round trips, idempotence, reconciliation of the hours ledger, the pigeonhole argument behind the free banner slot, and the countdown decomposition.

Four behaviours of the source are modelled as written, each beside the evidently intended behaviour; every one is a row under "## Findings":

- **The login session carries no role.** The collaborator login writes a session with `userType` but no `role` (app/api/auth/collaborator-login/route.ts:52, :87), while the collaborator routes test `role`. `CollaboratorLoginRoute.LoginSessionHasNoRole` and the two methods of `SessionFlow` prove the consequence: a collaborator who has just logged in is refused with 401 by set-access-code, leave-request and reset-request. `MarkReadRoute.RolelessSessionMarksNothing` shows the same session marks no notification. `CollaboratorLoginRoute.IntendedSessionFor` is the session with the role, and `SessionFlow.FirstAccessWithRole` shows that with it the first-access registration gets past the guard.
- **The countdown prop is misnamed.** The dashboard passes `endDate` to the countdown, which reads `targetDate`. `CollaboratorDashboard.DashboardCountdownAlwaysEnded` proves that the dashboard countdown always reads "Período encerrado!". With the prop named `targetDate`, `CollaboratorDashboard.IntendedCountdownEndsUnderASecond` shows it ends exactly when less than a second is left.
- **A closed edit dialog leaves its banner selected.** The banner admin page clears `editingBanner` only after a successful update and after computing the add button's suggestion (app/admin/info-banners/page.tsx:136, :187-190). After an edit dialog is closed without saving, the add button can suggest the position of the banner last opened for editing, which is taken. `BannerAdminPage.StaleEditSuggestsTakenPosition` exhibits such a case; the route's uniqueness check then refuses the insert. With no banner selected, `BannerAdminPage.SuggestionFreeWhenAddEnabled` shows the suggestion is always free.
- **The period deactivation is not checked.** The period definition ignores the result of its bulk deactivation (app/api/admin/time-bank-period/route.ts:68). `TimeBankPeriodRoute.TwoActiveWhenDeactivateFails` shows that a failed deactivation leaves two periods active; the GET still shows the new one. When the deactivation succeeds, `TimeBankPeriodRoute.PostKeepsWellFormed` keeps at most one period active.

Where the code and the portal's prose description differ, the model follows the code:

- **Unknown badge.** The login's `.single()` reports an unknown badge as a query error, so an unknown badge gets 500, not 401.
- **Set-access-code conflicts.** Set-access-code does not check whether another collaborator holds the code. The table's unique constraint refuses such an update, and the handler answers 500.
- **`access_code_set`.** Set-access-code writes `access_code` only; `access_code_set`, which the login reads, is left untouched.

Inputs outside the model are parameters:

- the authentication service's answer (`signIn`);
- the password hash function (`hash`);
- the id the database generates (`newId`);
- whether the delete-all of announcements succeeds (`deleteSucceeds`);
- whether the bulk deactivation of periods succeeds (`deactivateSucceeds`);
- the current time (`now`);
- the column defaults of a new collaborator (`ColumnDefaults`).

## Model

| member | source | states |
|---|---|---|
| Schema.FirstIndex | app/api/admin/time-entry/route.ts:31-35 | the row `.eq(...).single()` selects: the first row satisfying the filter, and None exactly when no row does |
| Schema.First | app/api/collaborator/access-code-reset-request/route.ts:15-20 | a row is found iff some row satisfies the filter, and the row found is in the table and satisfies it |
| Schema.SetBalance | app/api/admin/time-entry/route.ts:78-81 | the update by id: rows with the id get the new balance, every other row is unchanged, the length is kept |
| Schema.SetAccessCode | app/api/admin/change-access-code/route.ts:44-47 | the update by id: rows with the id get the new code, every other row is unchanged, the length is kept |
| Schema.UniqueRowById | app/api/admin/time-entry/route.ts:31-35 | with unique ids, the lookup by id finds exactly the row carrying that id |
| Schema.BalanceAfterSet | app/api/admin/time-entry/route.ts:78-81 | after the update the target's balance is the new value and every other collaborator's balance is as before |
| Schema.SetBalanceKeepsUnique | app/api/admin/time-entry/route.ts:78-81 | a balance update keeps the unique constraints of the collaborators table |
| Schema.SetAccessCodeKeepsUnique | app/api/admin/change-access-code/route.ts:31-47 | a code change keeps the unique constraints when no other collaborator holds the new code |
| Text.Trim | app/api/collaborator/set-access-code/route.ts:28 | `trim()`: a contiguous infix of the input, with no white space at either end, after removing only white space |
| Text.TrimIdempotent | app/api/collaborator/set-access-code/route.ts:52 | trimming the stored code again changes nothing |
| Text.Utf16Length | app/api/collaborator/set-access-code/route.ts:28 | JavaScript's `length`: between the number of characters and twice it, and equal to it iff no character lies outside the Basic Multilingual Plane |
| Text.StrLeTotal | app/api/admin/collaborators/route.ts:17 | any two names compare in the ascending text order |
| Text.StrLeTransitive | app/api/admin/collaborators/route.ts:17 | the ascending text order is transitive |
| Sorting.InsertBy | app/api/admin/info-banners/route.ts:19 | inserting into a sorted sequence keeps it sorted and adds exactly the one element |
| Sorting.SortBy | app/api/admin/info-banners/route.ts:16-19 | `.order(column)`: the result is sorted by the column and is a permutation of the table |
| TimeEntryRoute.ParseEntryType | app/api/admin/time-entry/route.ts:45-57 | exactly "positive", "negative" and "overtime" are accepted |
| TimeEntryRoute.Post | app/api/admin/time-entry/route.ts:41-57 | new balance = old balance + stored change; the change is -h for negative and +h otherwise; overtime hours are h only for overtime |
| TimeEntryRoute.NegativeUndoesPositive | app/api/admin/time-entry/route.ts:45-50 | a negative entry of h hours undoes a positive entry of h hours |
| TimeEntryRoute.OvertimeCountsAsPositive | app/api/admin/time-entry/route.ts:51-54 | overtime moves the balance and the stored change exactly as a positive entry does |
| TimeEntryRoute.LedgerTotalAppend | app/api/admin/time-entry/route.ts:60-70 | an inserted entry adds its stored change to its own collaborator's ledger total and to no other |
| TimeEntryRoute.EntryReconciles | app/api/admin/time-entry/route.ts:59-81 | inserting the entry and updating the balance keep "balance minus ledger total" fixed for every collaborator |
| TimeEntryRoute.PostTimeEntry | app/api/admin/time-entry/route.ts:5-93 | 401/403/400/404/400 guards in order; 200 iff all pass; on 200 the entry and new balance follow `Post` from the balance read, a missing one counting as 0; otherwise no table changes; balance minus ledger total is preserved and the constraints hold |
| CollaboratorLoginRoute.AuthEmail | app/api/auth/collaborator-login/route.ts:73 | the sign-in identity is the badge followed by "@timebank.com" |
| CollaboratorLoginRoute.AuthEmailInjective | app/api/auth/collaborator-login/route.ts:73 | distinct badges sign in under distinct identities |
| CollaboratorLoginRoute.SessionFor | app/api/auth/collaborator-login/route.ts:51-88 | a session is written exactly for the first-access and signed-in outcomes |
| CollaboratorLoginRoute.SessionOnlyForActive | app/api/auth/collaborator-login/route.ts:36-38 | a session is written only for an active collaborator, under that collaborator's id |
| CollaboratorLoginRoute.PendingIffNoCodeSet | app/api/auth/collaborator-login/route.ts:51-59 | the written session carries the pending flag iff the collaborator has no code set |
| CollaboratorLoginRoute.CodeDecidesTheFlow | app/api/auth/collaborator-login/route.ts:41-69 | supplying a code never starts the first-access flow; omitting one never signs in |
| CollaboratorLoginRoute.OracleConsultedOnce | app/api/auth/collaborator-login/route.ts:72-75 | the outcome depends on the authentication service only at the badge's identity and the supplied code, and only when a code is set |
| CollaboratorLoginRoute.LoginSessionHasNoRole | app/api/auth/collaborator-login/route.ts:87 | no session the login writes passes the collaborator or the admin guard |
| CollaboratorLoginRoute.IntendedSessionFor | app/api/auth/collaborator-login/route.ts:51-88 | the session the login evidently means to write: written for the same outcomes as `SessionFor`, equal to it but for the role "collaborator" |
| CollaboratorLoginRoute.IntendedSessionPassesGuard | app/api/auth/collaborator-login/route.ts:51-88 | every session the corrected login writes passes the collaborator guard and not the admin guard |
| CollaboratorLoginRoute.CollaboratorLogin | app/api/auth/collaborator-login/route.ts:5-96 | status, `needsAccessCodeSetup` and `accessCodeRequired` follow the decision table; the cookie changes only on the two session-writing outcomes |
| SetAccessCodeRoute.RecreatedSession | app/api/collaborator/set-access-code/route.ts:61 | the recreated session is the same user's, passes the collaborator guard and has no pending flag |
| SetAccessCodeRoute.BodyError | app/api/collaborator/set-access-code/route.ts:20-30 | the body passes iff the code is present, equals its confirmation and is at least 4 UTF-16 code units long after trimming; a failure is 400 |
| SetAccessCodeRoute.StoredCodeWellFormed | app/api/collaborator/set-access-code/route.ts:28-30 | a code that passes is stored with at least 4 UTF-16 code units, hence at least 2 characters, and no outer white space |
| SetAccessCodeRoute.TwoAstralCharactersAccepted | app/api/collaborator/set-access-code/route.ts:28 | a code of two characters outside the Basic Multilingual Plane is four code units long and passes the length check |
| SetAccessCodeRoute.Outcome | app/api/collaborator/set-access-code/route.ts:12-58 | 401/400/404/409 in the guards' order, then 500 when another collaborator holds the trimmed code and 200 otherwise |
| SetAccessCodeRoute.StoreOwnCode | app/api/collaborator/set-access-code/route.ts:12-58 | the status is `Outcome`; on 200 only the session user's rows get the trimmed code; otherwise nothing changes; the constraints hold |
| SetAccessCodeRoute.SetOwnAccessCode | app/api/collaborator/set-access-code/route.ts:12-68 | the handler as intended: the status is `Outcome`; on 200 only the session user's rows get the trimmed code and the session is recreated without the pending flag; otherwise nothing changes; the constraints hold |
| SetAccessCodeRoute.SetOwnAccessCodeAsWritten | app/api/collaborator/set-access-code/route.ts:50-67 | the handler as written: never 200; where `Outcome` is 200 the code is stored and the answer is 500; the cookie keeps its pending flag |
| SetAccessCodeRoute.SetOnce | app/api/collaborator/set-access-code/route.ts:46-53 | after a successful set the row holds a non-empty code, so the set-once guard refuses any later call |
| SetAccessCodeRoute.AccessCodeSetUntouched | app/api/collaborator/set-access-code/route.ts:52 | the update leaves `access_code_set` and the balance of every row as they were |
| ClearPendingRoute.Cleared | app/api/auth/clear-pending-access-code/route.ts:7-13 | the result has no pending flag and keeps userId, userType and role; a session without the flag, or no session, is unchanged |
| ClearPendingRoute.ClearIdempotent | app/api/auth/clear-pending-access-code/route.ts:7-13 | a second call changes nothing |
| ClearPendingRoute.ClearPendingAccessCode | app/api/auth/clear-pending-access-code/route.ts:4-17 | always 200, and the stored session becomes `Cleared` of the old one |
| ChangeAccessCodeRoute.TakenByOtherExact | app/api/admin/change-access-code/route.ts:31-42 | with unique codes, the conflict test fires iff some collaborator other than the target holds the code |
| ChangeAccessCodeRoute.ChangeCode | app/api/admin/change-access-code/route.ts:5-59 | 401/403/400 guards in order; 409 iff another collaborator holds the code; on 200 only the target's code changes; otherwise nothing changes; codes stay unique |
| ChangeAccessCodeRoute.ReassignOwnCodeAllowed | app/api/admin/change-access-code/route.ts:37 | giving a collaborator the code it already holds is never a conflict |
| ChangeAccessCodePage.ReplaceCode | app/admin/change-access-code/page.tsx:105-109 | length and order are kept, the selected entries get the new code and every other entry is identical |
| ChangeAccessCodePage.FindIndex | app/admin/change-access-code/page.tsx:124 | `find`: the first entry with the id, or None when no entry has it |
| ChangeAccessCodePage.CurrentCode | app/admin/change-access-code/page.tsx:123-126 | "N/A" when the id is not listed, otherwise the code of a listed entry with that id |
| ChangeAccessCodePage.CurrentCodeAfterReplace | app/admin/change-access-code/page.tsx:105-126 | after the local update the page shows the new code for the selected collaborator |
| ChangeAccessCodePage.CurrentCodeOfOthers | app/admin/change-access-code/page.tsx:105-126 | the local update does not change the code shown for any other collaborator |
| ChangeAccessCodePage.FindIndexOutside | app/admin/change-access-code/page.tsx:124 | an update that keeps every id finds the same first entry for any other id |
| ChangeAccessCodePage.Page.constructor | app/admin/change-access-code/page.tsx:24-28 | the form fields start empty and the page is not submitting |
| ChangeAccessCodePage.Page.HandleSubmit | app/admin/change-access-code/page.tsx:82-121 | nothing is sent iff the selection or the code is empty; on an ok reply the list gets `ReplaceCode` and the code field is cleared; otherwise list and field are unchanged; submitting ends false |
| ResetRequestRoute.PendingRequest | app/api/collaborator/access-code-reset-request/route.ts:15-20 | a pending request is found iff this collaborator has one; other collaborators' and answered requests do not count |
| ResetRequestRoute.AppendKeepsAtMostOnePending | app/api/collaborator/access-code-reset-request/route.ts:29-34 | appending a pending request for a collaborator without one keeps at most one pending request per collaborator |
| ResetRequestRoute.RequestReset | app/api/collaborator/access-code-reset-request/route.ts:5-52 | 401 without a collaborator session, 409 iff a pending request exists, else 200 appending a pending request under the session user; the invariant holds |
| ResetRequestRoute.SecondRequestRefused | app/api/collaborator/access-code-reset-request/route.ts:15-27 | right after a successful request, the same collaborator's next request finds a pending one |
| LeaveRequestRoute.NewRequest | app/api/collaborator/leave-request/route.ts:43-51 | the inserted request belongs to the session user, copies the dates and reason, and is pending |
| LeaveRequestRoute.RequestLeave | app/api/collaborator/leave-request/route.ts:5-63 | 401/400/404 guards in order; 403 iff the balance is negative (a zero or null balance passes); on 200 one pending request is appended; only the leave table can change |
| TimeBankPeriodRoute.LastActiveIndex | app/api/admin/time-bank-period/route.ts:17-19 | the position of the last active period, with no active period after it, or None when none is active |
| TimeBankPeriodRoute.LatestActive | app/api/admin/time-bank-period/route.ts:14-28 | a period is returned iff some period is active, and it is an active period of the table |
| TimeBankPeriodRoute.ActiveCount | app/api/admin/time-bank-period/route.ts:17 | the count of active periods is 0 iff no period is active |
| TimeBankPeriodRoute.DeactivateAll | app/api/admin/time-bank-period/route.ts:68 | every period becomes inactive and nothing else about any period changes |
| TimeBankPeriodRoute.NoneActiveAfterDeactivate | app/api/admin/time-bank-period/route.ts:68 | after the bulk update no period is active |
| TimeBankPeriodRoute.AppendKeepsStartsBeforeEnds | app/api/admin/time-bank-period/route.ts:62-77 | appending a period that starts before it ends, with or without the bulk deactivation, keeps every period starting before it ends |
| TimeBankPeriodRoute.PostKeepsWellFormed | app/api/admin/time-bank-period/route.ts:62-77 | a definition with start before end, after a successful bulk deactivation, keeps "at most one active, start before end" |
| TimeBankPeriodRoute.ExactlyOneActiveAfterPost | app/api/admin/time-bank-period/route.ts:67-77 | after a definition exactly one period is active, and the GET returns the new one |
| TimeBankPeriodRoute.TwoActiveWhenDeactivateFails | app/api/admin/time-bank-period/route.ts:67-77 | when the bulk deactivation fails while a period is active, the insert leaves at least two periods active, and the GET returns the new one |
| TimeBankPeriodRoute.GetPeriod | app/api/admin/time-bank-period/route.ts:5-33 | 401 without an admin session, else 200 with the latest active period or null |
| TimeBankPeriodRoute.DefinePeriod | app/api/admin/time-bank-period/route.ts:35-89 | 401/403/400 guards in order, 400 iff start is not before end; on 200 the periods are deactivated if `deactivateSucceeds` and left as they were otherwise, the new active one is appended under the session user, and the GET returns it; start before end always holds; at most one active holds unless a deactivation failed |
| AnnouncementRoute.GetAnnouncement | app/api/admin/announcement/route.ts:5-33 | 401 without an admin session, else 200 with the latest content or "" |
| AnnouncementRoute.SaveAnnouncement | app/api/admin/announcement/route.ts:35-88 | 401/403 guards, 400 iff the content is empty; on 200 the table holds only the new announcement, or the old ones plus it when the delete failed |
| AnnouncementRoute.LatestAfterSave | app/api/admin/announcement/route.ts:61-76 | whether or not the delete succeeded, the next GET shows the content just saved |
| InfoBannersRoute.NewBanner | app/api/admin/info-banners/route.ts:77-87 | an empty link is stored as null; `is_active` is true unless the body says false; image, position and admin are copied |
| InfoBannersRoute.ByOrderIndex | app/api/admin/info-banners/route.ts:19 | ascending display position, a total preorder |
| InfoBannersRoute.ListBanners | app/api/admin/info-banners/route.ts:7-31 | 401 without an admin session, else 200 with every banner in ascending position |
| InfoBannersRoute.AddBanner | app/api/admin/info-banners/route.ts:33-107 | 401/403/400 guards in order; 400 iff the position is outside 1..5, five banners exist or the position is taken; on 200 the new banner is appended; unique positions are kept, and so is "at most five banners, positioned in 1..5" when the table held it before |
| BannerAdminPage.OfferedFrom | app/admin/info-banners/page.tsx:164-168 | the offered positions from k to 5, strictly ascending |
| BannerAdminPage.AvailableOrderIndices | app/admin/info-banners/page.tsx:164-168 | strictly ascending positions in 1..5; k is listed iff no other banner uses it or it is the edited banner's own position |
| BannerAdminPage.SuggestedOrder | app/admin/info-banners/page.tsx:187 | the least offered position, or 1 when none is offered |
| BannerAdminPage.OfferedWhenNotEditing | app/admin/info-banners/page.tsx:164-168 | outside editing, a position is offered iff no banner uses it |
| BannerAdminPage.PositionsNeedBanners | app/admin/info-banners/page.tsx:164-168 | banners that occupy every position 1..m number at least m |
| BannerAdminPage.AllTakenWhenNoneOffered | app/admin/info-banners/page.tsx:164-168 | when nothing is offered, all five positions are in use |
| BannerAdminPage.SomeOfferedWhenFewBanners | app/admin/info-banners/page.tsx:164-168 | fewer than five banners always leave some position offered |
| BannerAdminPage.SuggestionFreeWhenAddEnabled | app/admin/info-banners/page.tsx:182-193 | when adding is enabled and no banner is being edited, the suggested position is in 1..5 and free, so the route's range and duplicate checks pass |
| BannerAdminPage.StaleEditSuggestsTakenPosition | app/admin/info-banners/page.tsx:159-193 | with the last edited banner still selected, the add button is enabled and suggests that banner's own position, which is taken |
| BannerSlider.JsRem | components/info-banner-slider.tsx:49 | JavaScript's `%`: Euclidean for a non-negative dividend, in (-n, 0] for a negative one |
| BannerSlider.Next | components/info-banner-slider.tsx:52-54 | stays in [0, n) and wraps from the last banner to the first |
| BannerSlider.Previous | components/info-banner-slider.tsx:48-50 | stays in [0, n) and wraps from the first banner to the last |
| BannerSlider.PreviousUndoesNext | components/info-banner-slider.tsx:48-54 | previous after next returns to the same banner |
| BannerSlider.NextUndoesPrevious | components/info-banner-slider.tsx:48-54 | next after previous returns to the same banner |
| BannerSlider.Advance | components/info-banner-slider.tsx:39-46 | the index after k ticks stays in [0, n) |
| BannerSlider.AdvanceIsRotation | components/info-banner-slider.tsx:39-46 | k ticks from i land on (i + k) mod n |
| BannerSlider.FullCycle | components/info-banner-slider.tsx:39-46 | n ticks come back to the starting banner |
| BannerSlider.Slider.constructor | components/info-banner-slider.tsx:15-17 | starts loading, with no banners and index 0 |
| BannerSlider.Slider.FinishLoading | components/info-banner-slider.tsx:20-35 | loading ends on every path; the banners are those received on an ok reply, else none; the index stays 0 |
| BannerSlider.Slider.GoToNext | components/info-banner-slider.tsx:52-54 | the index becomes `Next` of the old one |
| BannerSlider.Slider.GoToPrevious | components/info-banner-slider.tsx:48-50 | the index becomes `Previous` of the old one |
| BannerSlider.Slider.GoTo | components/info-banner-slider.tsx:109 | the dot's index becomes current |
| BannerSlider.Slider.Tick | components/info-banner-slider.tsx:39-46 | with more than one banner the index advances by `Next`, otherwise it is unchanged |
| BannerSlider.Slider.Render | components/info-banner-slider.tsx:56-126 | a message iff loading; nothing iff loaded with no banners; otherwise the current banner, arrows iff more than one, one dot per banner, a link iff the link is non-empty |
| Countdown.TargetDate | components/countdown-timer.tsx:6-10 | the `targetDate` prop: undefined iff the caller did not pass it, otherwise the value passed |
| Countdown.Difference | components/countdown-timer.tsx:12 | defined iff the target is; now plus the difference is the target |
| Countdown.CalculateTimeLeft | components/countdown-timer.tsx:11-26 | all zero for a non-positive or NaN difference; hours < 24, minutes < 60, seconds < 60 |
| Countdown.Decomposition | components/countdown-timer.tsx:16-21 | days·86400 + hours·3600 + minutes·60 + seconds = whole seconds of the difference |
| Countdown.Parts | components/countdown-timer.tsx:40 | the keys "dias", "horas", "minutos", "segundos" in that order, whose values give back the time left |
| Countdown.NonZeroParts | components/countdown-timer.tsx:40-44 | no longer than the input, every kept part is a non-zero part of the input, and the result is empty iff every part is zero |
| Countdown.NonZeroPartsKeepsEveryNonZero | components/countdown-timer.tsx:40-44 | every non-zero part of the input is kept |
| Countdown.NonZeroPartsSingle | components/countdown-timer.tsx:41 | a single part is kept iff it is non-zero |
| Countdown.NonZeroPartsAppend | components/countdown-timer.tsx:40-44 | filtering a concatenation is the concatenation of the filtered halves, so the input order is kept |
| Countdown.NonZeroPartsOfTimeLeft | components/countdown-timer.tsx:38-52 | for every time left, the shown parts are exactly its non-zero fields under their keys, in the order days, hours, minutes, seconds |
| Countdown.TimerComponents | components/countdown-timer.tsx:38-52 | the loop collects exactly the non-zero fields of the time left under their keys, in the order days, hours, minutes, seconds |
| Countdown.Show | components/countdown-timer.tsx:54-61 | "Período encerrado!" iff there is no component |
| Countdown.EndedIffUnderASecond | components/countdown-timer.tsx:11-61 | the countdown reads "Período encerrado!" iff the target is not a date or less than a second is left |
| MarkReadRoute.MarkRead | app/api/notifications/mark-read/route.ts:19-24 | a notification becomes read iff it is listed, is the session user's and has the session's role as type; every other row is unchanged |
| MarkReadRoute.MarkReadIdempotent | app/api/notifications/mark-read/route.ts:19-24 | marking twice is marking once |
| MarkReadRoute.OthersUntouched | app/api/notifications/mark-read/route.ts:23-24 | notifications of other users, of the other type, or not listed are unchanged |
| MarkReadRoute.RolelessSessionMarksNothing | app/api/notifications/mark-read/route.ts:24 | a session without a role marks no notification |
| MarkReadRoute.MarkNotificationsRead | app/api/notifications/mark-read/route.ts:5-36 | 401 without a session, 400 iff the ids are not a non-empty array, else 200 applying `MarkRead` |
| CreateAdminRoute.NewAdministrator | app/api/admin/create-admin/route.ts:39-51 | the row stores the hash of the password, and grants a permission iff the body explicitly asked for it |
| CreateAdminRoute.InsertKeepsUnique | app/api/admin/create-admin/route.ts:41-62 | an insert that clashes with no id or username keeps both unique |
| CreateAdminRoute.RegisterAdmin | app/api/admin/create-admin/route.ts:6-69 | 401/403/400 guards in order; a clash gives 400 with "Nome de usuário já existe."; on 200 the new administrator is appended; the constraints hold |
| CreateAdminRoute.TakenUsernameRefused | app/api/admin/create-admin/route.ts:53-62 | a registered username always clashes, whatever id is generated |
| CollaboratorsRoute.NewCollaborator | app/api/admin/collaborators/route.ts:59-66 | name, badge and code are copied, and an empty direct leader is stored as null |
| CollaboratorsRoute.InsertKeepsUnique | app/api/admin/collaborators/route.ts:59-77 | an insert that clashes with no id, badge or code keeps them unique |
| CollaboratorsRoute.ByFullName | app/api/admin/collaborators/route.ts:17 | ascending full name, a total preorder |
| CollaboratorsRoute.ListCollaborators | app/api/admin/collaborators/route.ts:5-29 | 401 without an admin session, else 200 with every collaborator in ascending name order |
| CollaboratorsRoute.RegisterCollaborator | app/api/admin/collaborators/route.ts:31-84 | 401/403/400 guards in order; a clash gives 400 with the duplicate message; on 200 the new collaborator is appended; the constraints hold |
| TestNotificationRoute.RecipientRole | app/api/admin/send-test-notification/route.ts:29-31 | exactly "collaborator" and "admin" are accepted, each mapped to its own type |
| TestNotificationRoute.TestNotification | app/api/admin/send-test-notification/route.ts:48-56 | the row goes to the recipient with the given type and message, has type "test_notification" and no related id, and is unread |
| TestNotificationRoute.SendTestNotification | app/api/admin/send-test-notification/route.ts:5-68 | 401/403/400/400 guards in order; 404 iff the recipient has no row in its type's table; on 200 the notification is appended |
| CollaboratorDashboard.AcceptedWithinBalance | app/collaborator/page.tsx:137-148 | with the summary loaded, a request passes iff 0 < hours ≤ balance |
| CollaboratorDashboard.BalanceCheckSkippedWithoutData | app/collaborator/page.tsx:144 | without the summary, any positive number of hours passes |
| CollaboratorDashboard.CountdownProps | app/collaborator/page.tsx:244 | the page passes the period's end under the name `endDate` |
| CollaboratorDashboard.DashboardCountdownAlwaysEnded | app/collaborator/page.tsx:244 | the dashboard countdown shows "Período encerrado!" whatever the period and the clock |
| CollaboratorDashboard.IntendedCountdownProps | app/collaborator/page.tsx:244 | the props the page evidently means to pass: the component reads the period's end as its target |
| CollaboratorDashboard.IntendedCountdownEndsUnderASecond | app/collaborator/page.tsx:244 | with the prop named `targetDate`, the dashboard countdown ends exactly when less than a second of the period is left |
| CollaboratorDashboard.Dashboard.constructor | app/collaborator/page.tsx:45-49 | starts loading, with no summary, no requests and an empty form |
| CollaboratorDashboard.Dashboard.HandleLeaveRequestSubmit | app/collaborator/page.tsx:133-183 | a request is sent iff the hours are acceptable; on an ok reply the form resets and the refreshed lists replace the old ones; otherwise nothing changes; loading ends false on every path |
| SessionFlow.FirstAccess | app/api/auth/collaborator-login/route.ts:51-59 | when the login starts the first-access flow, registering a code right after it is refused with 401 and changes nothing |
| SessionFlow.LoginThenRequest | app/api/auth/collaborator-login/route.ts:86-88 | after a login that writes a session, leave and reset requests are both refused with 401 and neither table changes |
| SessionFlow.FirstAccessWithRole | app/api/auth/collaborator-login/route.ts:51-59 | set-access-code answers 401 to the first-access session as written, whatever the tables and body; with the intended role it never answers 401, and answers 200 whenever the body, the row and the code pass |

## Findings

| source | as written | input that shows it | evidently intended | confidence | as-written member | corrected member |
|---|---|---|---|---|---|---|
| app/api/collaborator/set-access-code/route.ts:61 | calls `createSession`, which lib/session.ts does not define, after the update has stored the code; the call throws and the catch answers 500 with the pending flag still in the cookie | any request from a collaborator session with a valid, unused code and no code set yet | recreate the session without the pending flag and answer 200 | not executed | SetAccessCodeRoute.SetOwnAccessCodeAsWritten | SetAccessCodeRoute.SetOwnAccessCode |
| app/api/auth/collaborator-login/route.ts:52 | the first-access session, like the signed-in one at :87, is written with `userType` but no `role`, and the collaborator routes test `role` | a collaborator with no code set logs in with the badge alone, then registers a code: set-access-code answers 401 | write `role: "collaborator"` so the collaborator routes accept the session | not executed | SessionFlow.FirstAccess | SessionFlow.FirstAccessWithRole |
| app/collaborator/page.tsx:244 | passes the period's end as `endDate`, while the countdown component reads `targetDate` | any active period whose end is a day away: the dashboard shows "Período encerrado!" | pass the end as `targetDate` so the countdown runs | not executed | CollaboratorDashboard.DashboardCountdownAlwaysEnded | CollaboratorDashboard.IntendedCountdownEndsUnderASecond |
| app/admin/info-banners/page.tsx:187-190 | the add button computes its suggestion from `editingBanner` before clearing it, and closing the edit dialog without saving leaves it set | one banner at position 1 opened for editing, the dialog closed, then "Adicionar Novo Banner": position 1 is suggested | suggest positions as if no banner were being edited | not executed | BannerAdminPage.StaleEditSuggestsTakenPosition | BannerAdminPage.SuggestionFreeWhenAddEnabled |
| app/api/admin/time-bank-period/route.ts:68 | the result of the bulk deactivation is not checked before the insert | an active period exists and the deactivation update fails: two periods are active | stop with 500 when the deactivation fails, so at most one period stays active | not executed | TimeBankPeriodRoute.TwoActiveWhenDeactivateFails | TimeBankPeriodRoute.PostKeepsWellFormed |

## Left out

- Database I/O. The hosted database client is not part of this model: tables are in-memory sequences, and every query error, transport error or thrown exception (the 500 branches after the guards) is left out. The one exception is the errors the table constraints cause, which are modelled.
- `.single()` with several matching rows is an error in the client library. The model instead takes the first matching row. Under the unique constraints the two agree, except for the pending reset-request lookup, where `AtMostOnePending` rules out several rows.
- Concurrency. Handlers run one at a time, so read-then-write races (balance read then update, count then insert) are not modelled.
- Password hashing (bcrypt) is the parameter `hash`.
- The external authentication service is the oracle `signIn`.
- `createSession`, called by set-access-code, is not defined in lib/session.ts. `SetAccessCodeRoute.SetOwnAccessCode`, which the rest of the model uses, takes it to write the session of that user with type and role "collaborator" and no pending flag; `SetAccessCodeRoute.SetOwnAccessCodeAsWritten` models the call as the exception it is (see Findings).
- CollaboratorDashboard.Dashboard.HandleLeaveRequestSubmit: `Summary.balanceHours` is a number, never null. A null balance makes the page's `balance_hours.toFixed(2)` (app/collaborator/page.tsx:213) throw while rendering, before the form can be submitted.
- CollaboratorLoginRoute.CollaboratorLogin: a request body that is not JSON (app/api/auth/collaborator-login/route.ts:9-16, answered 400) is not modelled; the body is already a record of its fields.
- Cookie storage, expiry and JSON parsing of the session are left out. The session is a plain record, and an unparsable cookie is the same as no cookie.
- Column defaults of the database are not part of this model. A new collaborator's `access_code_set`, `is_active` and balance come from the parameter `ColumnDefaults`; a new notification is unread.
- Generated ids are the parameter `newId`. The `created_at` and `updated_at` timestamps are left out; the most recent row is the last one in its table.
- Dates are instants in milliseconds (`int`). Date parsing and formatting are left out, and so is an unparsable period date, which the source compares as an invalid date.
- Hours are `real`. IEEE floating point, and a non-numeric `hours_worked`, are left out.
- Countdown.CalculateTimeLeft uses integer division on the whole milliseconds. For a non-negative difference this equals `Math.floor` of the floating-point quotient. A NaN difference is modelled as None.
- `order_index` is an integer. A fractional or textual `order_index` sent in the body is not modelled.
- Text order is code-point order. The database's collation for `.order("full_name")` is not part of this model.
- Timers are left out. `Slider.Tick` models one firing of the interval. The countdown's one-second re-render is `CalculateTimeLeft` at a later `now`.
- Rendering, toasts, routing and the fetches that load each page are left out. The refresh fetches after a leave request are parameters, and a failed refresh keeps the old value.
- ChangeAccessCodePage.Page.HandleSubmit: the page's `loading` flag and the initial fetch of the list are not modelled; the list is given to the constructor.
- The remaining routes and pages of the portal are not part of this model. They are read pass-throughs, the admin login, logout, the forgotten-code lookup, the dashboard summary and the other admin pages.
