# Settle: a verified model of the shared-expense ledger

Settle is a shared-expense tracker. Users form groups, record expenses, and settle
debts by recording payments. The backend is Node/Express over MongoDB; the frontend
is React. This project models the rules at its centre in Dafny:

- **Acceptance rules.** The checks that decide whether an expense or a payment is
  accepted, in their fixed order, with the HTTP status of each refusal.
- **The ledger.** A `Ledger` class whose handlers append a group, an expense or a
  payment. Each appends exactly one record on success and nothing on failure, and
  announces the record to every member.
- **Dashboard queries.** A user's balance, a group's totals, recent expenses and
  the expense count. Each is a recursive sum, filter or sort over explicit
  sequences of records.
- **The user registry.** Registration, login, profile, preferences and password
  change, over a `Registry` class. Emails are normalised and kept unique.
- **The client.** The app reducer, and the forms and views that build the requests
  the server then judges:
  - the add-expense form and its split builder;
  - the group-creation wizard;
  - the settle-up form;
  - the group search and sort;
  - the settlement-progress and category-percentage arithmetic.

Money is a Dafny `real`, so the one-cent tolerance of the expense checks is exact.
Timestamps are integers. A stored group's id is its position in the ledger.
A group id taken from a URL is an `Option<GroupId>`, where `None` is a malformed
id. The database cast then throws, which the handlers report as a 500 (`Thrown`):
listing a group's expenses, adding an expense, settling up, fetching a group and
the group summary. The analytics handler checks the id first and answers 400.

Modules follow the program's files:

- `expense_schema.dfy`, `records.dfy` and `users.dfy` hold the data model.
- `expense_controller.dfy`, `payment_controller.dfy`, `group_controller.dfy`,
  `dashboard.dfy` and `ledger_store.dfy` hold the backend handlers.
- `users.dfy` also holds the registry handlers.
- `app_reducer.dfy`, `add_expense_page.dfy`, `create_group_page.dfy`,
  `settle_up_page.dfy`, `groups_page.dfy`, `group_card.dfy` and
  `analytics_page.dfy` model the client.
- `text.dfy`, `sorting.dfy`, `sums.dfy`, `member_lists.dfy` and `reals.dfy` are the
  shared string, sorting, summing, list and arithmetic facts.
- `scenarios.dfy` works through concrete end-to-end cases.

The settle-up handler does not check that `from` and `to` are members, that
they differ, or that the amount is positive:

- It refuses only a falsy `from`, `to` or `amount`, so a negative amount passes.
- `PaymentController.CheckPayment` and `PaymentController.PartiesUnchecked` state
  this.
- Only the client form (`SettleUpPage.SettleForm.Submit`) refuses a payment to
  oneself or a non-positive amount.

## Model

| member | source | states |
|---|---|---|
| ExpenseSchema.ParseCategory | settle-backend/src/models/expense.model.js:33-35 | a category string is accepted iff it is one of the eight enumerated names, and maps to that category |
| ExpenseSchema.ParseCategoryName | settle-backend/src/models/expense.model.js:35 | every enumerated category is accepted under its own name |
| ExpenseSchema.ResolveCategory | settle-backend/src/models/expense.model.js:33-36 | an absent category becomes Other; a given one is accepted iff it is an enumerated name |
| ExpenseSchema.NewSplit | settle-backend/src/models/expense.model.js:3-17 | a split entry needs a non-empty user; paid and owes default to 0 |
| ExpenseSchema.NewExpense | settle-backend/src/models/expense.model.js:19-45 | an expense is created iff group, title, amount and date are present, the category resolves and every split names a user; the fields are kept and an absent category is Other |
| ExpenseSchema.NewSplits | settle-backend/src/models/expense.model.js:3-17 | the split list is stored iff every entry names a user; then entry by entry with paid and owes defaulting to 0 |
| ExpenseSchema.NewSplitsSent | settle-backend/src/models/expense.model.js:3-17 | complete entries that name their users are stored exactly as sent |
| Records.Status | settle-backend/src/controllers/expense.controller.js:24-46 | each failure's HTTP status: 400 for missing fields, sum mismatch, no payer and a bad id; 403 for non-members and callers without access; 404 for a missing group; 500 for schema and thrown errors |
| Records.FindGroup | settle-backend/src/controllers/expense.controller.js:28-31 | `findById` finds a stored group with that id, or reports none exists |
| ExpenseController.PaidAsSent | settle-backend/src/controllers/expense.controller.js:36 | the sum of paid is a number iff every entry has paid; one missing makes it NaN |
| ExpenseController.OwesAsSent | settle-backend/src/controllers/expense.controller.js:37 | the sum of owes is a number iff every entry has owes; one missing makes it NaN |
| ExpenseController.SentSums | settle-backend/src/controllers/expense.controller.js:36-37 | on complete entries the two sums are Σpaid and Σowes |
| ExpenseController.SentSumCheck | settle-backend/src/controllers/expense.controller.js:39-41 | on complete entries the check passes iff both sums are within 0.01 of the amount |
| ExpenseController.FirstPayer | settle-backend/src/controllers/expense.controller.js:43-46 | the entry found has a positive paid, and none is found iff no entry has one (a missing paid is not positive) |
| ExpenseController.CheckExpense | settle-backend/src/controllers/expense.controller.js:24-46 | the checks in order: missing fields, then no group, then not a member, then a sum (NaN passes) more than 0.01 off, then no entry with positive paid; each error iff the earlier checks pass and its own fails; accepted iff all pass, with the group and a paying entry |
| ExpenseController.OneCentDifferenceAccepted | settle-backend/src/controllers/expense.controller.js:39-41 | example: sums exactly 0.01 off the amount are accepted |
| ExpenseController.BalancedWithoutPayerRejected | settle-backend/src/controllers/expense.controller.js:43-46 | example: matching sums with no positive payment are refused for having no payer |
| ExpenseController.UncheckedSplitsAccepted | settle-backend/src/controllers/expense.controller.js:36-46 | example: negative shares and users outside the group pass: only the sums are checked |
| ExpenseController.Stored | settle-backend/src/models/expense.model.js:3-17 | an entry naming a user is stored with missing numbers as 0 |
| ExpenseController.MissingPaidSkipsSumCheck | settle-backend/src/controllers/expense.controller.js:36-41 | example: an entry without paid makes Σpaid NaN, so a 100 expense is accepted and stored with Σpaid 5, which the check on stored values refuses |
| ExpenseController.StoredSumCheckKeepsBalance | settle-backend/src/models/expense.model.js:9-16 | the corrected check, on the values the schema stores, guarantees the stored splits balance |
| ExpenseController.StoredSumCheckAgrees | settle-backend/src/controllers/expense.controller.js:36-41 | on complete entries the corrected check and the check as written agree |
| ExpenseController.BalancedSplitsAccepted | settle-backend/src/controllers/expense.controller.js:24-46 | complete entries that balance, one paying something, are accepted from a member of an existing group once title, category, a non-zero amount and a date are given |
| ExpenseController.Participants | settle-backend/src/controllers/expense.controller.js:68 | the users who owe something, other than the payer, are listed, and nobody else is |
| ExpenseController.EmailRecipients | settle-backend/src/controllers/expense.controller.js:68-73 | emailed iff not opted out, not the payer, and owing something in some split |
| ExpenseController.MemberGroup | settle-backend/src/controllers/expense.controller.js:12-15 | a group with the id having the user as a member is found, or none exists |
| ExpenseController.OfGroup | settle-backend/src/controllers/expense.controller.js:16 | each expense occurs as often as in the store if it is the group's, else not at all; empty iff the group has none |
| ExpenseController.ListExpenses | settle-backend/src/controllers/expense.controller.js:10-18 | 500 iff the id is malformed; else 404 iff the user is a member of no group with that id; otherwise a permutation of the group's expenses, each as often as stored, latest date first |
| ExpenseController.AddToRows | settle-backend/src/controllers/expense.controller.js:100 | adding an amount to its category's row raises the total and that category's amount by it and no other |
| ExpenseController.BreakdownCorrect | settle-backend/src/controllers/expense.controller.js:98-102 | one row per distinct category of the group's expenses; each row sums its category's amounts; the rows sum to the group total |
| ExpenseController.GroupAnalytics | settle-backend/src/controllers/expense.controller.js:91-105 | 400 iff the id is malformed; otherwise rows with distinct categories, each row's total equal to its category's amount, and all rows adding to the group's spending |
| PaymentController.CheckPayment | settle-backend/src/controllers/payment.controller.js:11-21 | 400 iff from, to or amount is falsy; then 404 iff no group; then 403 iff the actor is not a member; accepted otherwise |
| PaymentController.PartiesUnchecked | settle-backend/src/controllers/payment.controller.js:23-30 | a member may record a negative payment from an outsider to themself: no party or sign check |
| GroupController.WithCreator | settle-backend/src/controllers/group.controller.js:24-27 | the creator is a member; the list is unchanged if the creator was listed, else the creator is appended with prior order and duplicates kept |
| GroupController.GroupInvitees | settle-backend/src/controllers/group.controller.js:42-48 | emailed iff a member, not the creator, and not opted out |
| GroupController.GroupById | settle-backend/src/controllers/group.controller.js:65-81 | 500 iff the id is malformed; else 404 iff no group; otherwise allowed iff the caller is its creator or a member, else 403 |
| GroupController.GroupsWithMember | settle-backend/src/controllers/group.controller.js:11 | each group occurs as often as stored if its members contain the email, else not at all |
| GroupController.GroupsOf | settle-backend/src/controllers/group.controller.js:9-14 | exactly the user's groups, a permutation of them, newest first |
| LedgerStore.FanOut | settle-backend/src/controllers/expense.controller.js:63-66 | one event per member entry, in member order, each carrying the new record |
| LedgerStore.GroupRecord | settle-backend/src/controllers/group.controller.js:29-34 | the stored group always has the creator among its members |
| LedgerStore.ExpenseRecord | settle-backend/src/controllers/expense.controller.js:48-57 | built iff every entry names a user and the category is enumerated; the stored splits are the entries with their defaults, with the group id, title, amount, date and creation time |
| LedgerStore.PaymentRecord | settle-backend/src/controllers/payment.controller.js:23-30 | the stored payment carries exactly the group, from, to and amount given |
| LedgerStore.Ledger.constructor | settle-backend/src/models/expense.model.js:47 | the store starts empty and valid |
| LedgerStore.Ledger.AddGroup | settle-backend/src/controllers/group.controller.js:16-62 | 400 iff name or members missing; 500 iff a member is empty; succeeds iff neither; on success one group with the creator as member is appended, every member gets an event, non-creator members who did not opt out are emailed; nothing changes on failure |
| LedgerStore.Ledger.AddExpense | settle-backend/src/controllers/expense.controller.js:20-88 | 400 iff a field is missing; then 500 iff the id is malformed; then the errors of CheckExpense as they are; then 500 iff the schema refuses; succeeds iff none applies; on success exactly one expense with the stored splits is appended, one event per member in order, and the emails go to EmailRecipients for the paying entry's user; nothing is stored on failure |
| LedgerStore.Ledger.SettleUp | settle-backend/src/controllers/payment.controller.js:7-41 | 400 iff a field is falsy; then 500 iff the id is malformed; otherwise fails iff CheckPayment fails, with its error and nothing stored; on success exactly one payment with the given fields is appended and every member gets an event |
| LedgerStore.CreatorCanOpenNewGroup | settle-backend/src/controllers/group.controller.js:73-78 | right after creation, the creator may open the new group |
| Sums.ExpenseSumPermutation | settle-backend/src/controllers/dashboard.controller.js:11-21 | a sum over expenses does not depend on their order |
| Sums.PaymentSumPermutation | settle-backend/src/controllers/dashboard.controller.js:23-31 | a sum over payments does not depend on their order |
| Dashboard.Max0 | settle-backend/src/controllers/dashboard.controller.js:38-39 | `Math.max(0, x)` is at least 0 and x, and is one of them |
| Dashboard.OverallBalance | settle-backend/src/controllers/dashboard.controller.js:8-47 | owedToMe and iOwe are both ≥ 0 and at least one is 0; owedToMe − iOwe = paidByMe − myShare − paidToMe, summed over all groups; each is positive iff the net has that sign |
| Dashboard.BalanceOrderIndependent | settle-backend/src/controllers/dashboard.controller.js:11-31 | reordering the stored expenses and payments leaves every balance unchanged |
| Dashboard.NoActivityNoBalance | settle-backend/src/controllers/dashboard.controller.js:33-36 | a user with no split entries and no payments has balance (0, 0) |
| Dashboard.PaymentsOf | settle-backend/src/controllers/dashboard.controller.js:57-60 | each payment occurs as often as stored if it is the group's, else not at all; empty iff it has none |
| Dashboard.GroupSummary | settle-backend/src/controllers/dashboard.controller.js:49-68 | a malformed id throws (500); otherwise the sum of the group's expense amounts and of its payment amounts |
| Dashboard.GroupTotalIsItsAmounts | settle-backend/src/controllers/dashboard.controller.js:52-55 | the group-filtered sum equals the sum of the group's expense amounts |
| Dashboard.SettledIsItsAmounts | settle-backend/src/controllers/dashboard.controller.js:57-60 | the group-filtered sum equals the sum of the group's payment amounts |
| Dashboard.EmptyGroupSummary | settle-backend/src/controllers/dashboard.controller.js:62-65 | example: a group with no expenses and payments has summary (0, 0) |
| Dashboard.OverpaymentNotCapped | settle-backend/src/controllers/dashboard.controller.js:62-65 | example: 25 settled on 10 spent is reported as 25, not capped |
| Dashboard.UserGroupIds | settle-backend/src/controllers/dashboard.controller.js:72-73 | exactly the ids of the groups having the user as member |
| Dashboard.InGroups | settle-backend/src/controllers/dashboard.controller.js:75 | each expense occurs as often as stored if its group is among those given, else not at all |
| Dashboard.TotalExpensesCount | settle-backend/src/controllers/dashboard.controller.js:83-91 | the number of stored expenses, copies included, whose group has the user as member; 0 iff there are none |
| Dashboard.NewestFirst | settle-backend/src/controllers/dashboard.controller.js:76-79 | the first k once sorted newest first are k of the given expenses, newest first, and none left out is newer than one taken |
| Dashboard.RecentExpenses | settle-backend/src/controllers/dashboard.controller.js:70-81 | at most 5, exactly min(5, count) of the user's groups' expenses, sorted by date then createdAt descending, and none left out is newer than one listed |
| Users.NormalEmailShape | settle-backend/src/models/user.model.js:14-15 | a normalised email has no capitals and no outer white space |
| Users.NormalisedFixed | settle-backend/src/models/user.model.js:14-15 | an email already in stored form is left unchanged |
| Users.NormalEmailIdempotent | settle-backend/src/models/user.model.js:14-15 | normalising twice is normalising once |
| Users.PreSave | settle-backend/src/models/user.model.js:32-39 | a modified password is hashed so that exactly it matches; an unmodified one keeps matching what it matched |
| Users.RehashLocksOut | settle-backend/src/models/user.model.js:34-36 | hashing an already hashed password would make every password fail |
| Users.NewUser | settle-backend/src/models/user.model.js:5-30 | created iff the normalised email and the password are non-empty; name defaults to 'New User', avatar to the placeholder URL, notifications to true; email stored normalised, password hashed |
| Users.UserStatus | settle-backend/src/controllers/user.controller.js:18-44 | 400, 409, 404, 401 and 500 for the registry's failures, each iff its failure |
| Users.IndexOfEmail | settle-backend/src/controllers/user.controller.js:20 | finds the user with that stored email, or reports none exists |
| Users.AppendWellFormed | settle-backend/src/models/user.model.js:10-13 | adding a user with a new normalised email keeps emails unique |
| Users.Registry.constructor | settle-backend/src/models/user.model.js:46 | the registry starts empty and well formed |
| Users.Registry.Notifiable | settle-backend/src/controllers/expense.controller.js:70-73 | exactly the emails of users with notifications on |
| Users.Registry.Login | settle-backend/src/controllers/user.controller.js:35-51 | 400 iff a field is missing; then 404 iff no user has the email; success only with the matching password, returning the user without password |
| Users.Registry.Register | settle-backend/src/controllers/user.controller.js:15-33 | 400 iff the name, email or password is missing; 409 iff the email is taken; 500 iff the email is blank after trimming; succeeds iff none applies, appending one user; emails stay unique, the reply has no password, and logging in with the same credentials succeeds |
| Users.Registry.UpdateProfile | settle-backend/src/controllers/user.controller.js:63-83 | 404 for an unknown user; a failed upload gives 500 with nothing saved; succeeds iff neither; an empty name keeps the old one; a successful upload sets the avatar; the password is unchanged |
| Users.Registry.UpdatePreferences | settle-backend/src/controllers/user.controller.js:85-109 | without a boolean flag nothing changes and the stored user (none if unknown) is returned; with one, 404 for an unknown user, else only that user's flag is set |
| Users.Registry.ChangePassword | settle-backend/src/controllers/user.controller.js:111-124 | 400 iff a password is missing; 500 for an unknown user; 401 iff the old password does not match; succeeds iff none applies; then only that user's password changes and exactly the new password matches |
| Users.LoginFindsUser | settle-backend/src/controllers/user.controller.js:40-44 | for a stored email, the right password logs in as that user and a wrong one gives 401 |
| AddExpensePage.Toggle | settle-frontend/src/pages/AddExpensePage.jsx:51-59 | the email becomes selected iff it was not; no other selection changes; a new one is appended |
| AddExpensePage.ToggleTwice | settle-frontend/src/pages/AddExpensePage.jsx:51-59 | toggling twice leaves the same emails selected |
| AddExpensePage.Lookup | settle-frontend/src/pages/AddExpensePage.jsx:93 | the amount typed for an email, 0 when none was typed |
| AddExpensePage.Assign | settle-frontend/src/pages/AddExpensePage.jsx:84-94 | typing sets that email's amount and no other, adding the email at the end if new |
| AddExpensePage.Restrict | settle-frontend/src/pages/AddExpensePage.jsx:218-225 | the correction: keep only the typed amounts of selected members, whose inputs are the ones shown; the others read 0 |
| AddExpensePage.BuildSplits | settle-frontend/src/pages/AddExpensePage.jsx:76-94 | one entry per group member in member order; the payer's entry paid the amount, the others 0; each owes their share |
| AddExpensePage.PaidPerPayerEntry | settle-frontend/src/pages/AddExpensePage.jsx:76-78 | whichever way it is shared, Σpaid is the amount added once per entry of the payer among the members, which `Reals.RepeatedIsProduct` turns into count × amount (0 if absent, twice the amount if listed twice) |
| AddExpensePage.PayerListedOnce | settle-frontend/src/pages/AddExpensePage.jsx:78 | with the payer listed exactly once, Σpaid is the amount |
| AddExpensePage.BuiltSplitsBalanced | settle-frontend/src/pages/AddExpensePage.jsx:76-94 | with the payer listed exactly once and the shares owed within a cent of the amount, the built splits pass both sums of the server check |
| AddExpensePage.OwedTotal | settle-frontend/src/pages/AddExpensePage.jsx:79 | Σowes of the built splits is the members' total share |
| AddExpensePage.EqualOwesTotal | settle-frontend/src/pages/AddExpensePage.jsx:72-81 | an equal split charges amount/\|selected\| once per selected member entry |
| AddExpensePage.SharesRecombine | settle-frontend/src/pages/AddExpensePage.jsx:74 | \|selected\| equal shares add back to the amount |
| AddExpensePage.EqualSharesAddUp | settle-frontend/src/pages/AddExpensePage.jsx:72-81 | with distinct members and a distinct non-empty selection of members, Σowes is the amount |
| AddExpensePage.EnteredSharesAddUp | settle-frontend/src/pages/AddExpensePage.jsx:84-94 | with distinct members and typed emails that are all members, Σowes is the typed total |
| AddExpensePage.DeselectedMemberStillOwes | settle-frontend/src/pages/AddExpensePage.jsx:84-94 | as written, a member typed in and then deselected still owes the typed amount |
| AddExpensePage.DeselectedOwesNothing | settle-frontend/src/pages/AddExpensePage.jsx:218-225 | under the corrected sharing, an unselected member owes 0 |
| AddExpensePage.CorrectedSharesAddUp | settle-frontend/src/pages/AddExpensePage.jsx:218-225 | under the corrected sharing, Σowes is the total typed for selected members, the total a corrected check would compare |
| AddExpensePage.ExpenseForm.constructor | settle-frontend/src/pages/AddExpensePage.jsx:10-19 | the form starts with no group, payer, selection or typed amounts |
| AddExpensePage.ExpenseForm.SelectedGroup | settle-frontend/src/pages/AddExpensePage.jsx:33 | the chosen group, when it is among those loaded |
| AddExpensePage.ExpenseForm.HandleGroupChange | settle-frontend/src/pages/AddExpensePage.jsx:35-49 | a found group's members are all selected (none if not found); payer and typed amounts are cleared |
| AddExpensePage.ExpenseForm.HandleMemberToggle | settle-frontend/src/pages/AddExpensePage.jsx:51-59 | the selection is toggled and nothing else changes |
| AddExpensePage.ExpenseForm.EnterCustomAmount | settle-frontend/src/pages/AddExpensePage.jsx:218-225 | the typed amount is assigned and nothing else changes |
| AddExpensePage.ExpenseForm.ChoosePayer | settle-frontend/src/pages/AddExpensePage.jsx:171-172 | the payer is set and nothing else changes |
| AddExpensePage.ExpenseForm.Submit | settle-frontend/src/pages/AddExpensePage.jsx:61-95 | refused iff amount ≤ 0 or a required field or the selection is empty; then a custom split whose typed amounts, all of them, are more than 0.01 off is refused; then no loaded group is refused; otherwise (iff all pass) the request carries one complete entry per group member, owing the equal share or the typed amount |
| AddExpensePage.BuiltRequestAccepted | settle-backend/src/controllers/expense.controller.js:24-46 | a request with title, category, date, a positive amount and the built splits is accepted from a member when the payer is listed exactly once and the shares owed are within a cent of the amount |
| AddExpensePage.SubmittedExpenseAccepted | settle-frontend/src/pages/AddExpensePage.jsx:61-95 | a request the form submits passes every server check when members are distinct, the payer, submitter, selection and typed emails are members, and a date is set (the form's guard does not check the date, and the server refuses a request without one) |
| AddExpensePage.FormCategoriesAdmitted | settle-frontend/src/pages/AddExpensePage.jsx:161 | every category the form offers is in the backend enum |
| AppReducer.Reduce | settle-frontend/src/context/AuthContext.jsx:16-51 | loading ends only on INITIALIZE or LOGOUT; only INITIALIZE, LOGOUT and ADD_GROUP touch the groups; only the session actions touch the user; signed-in stays in step with having a user |
| AppReducer.InitializeTakesSession | settle-frontend/src/context/AuthContext.jsx:18-19 | signed in iff the payload has a user; user and groups from the payload; loading false |
| AppReducer.LoginKeepsData | settle-frontend/src/context/AuthContext.jsx:20-21 | signed in as the payload; groups, expenses and loading unchanged |
| AppReducer.LogoutForgetsEverything | settle-frontend/src/context/AuthContext.jsx:22-23 | the result is the initial state with loading false, whatever came before |
| AppReducer.AddGroupPrepends | settle-frontend/src/context/AuthContext.jsx:24-25 | the group comes first, the rest follow unchanged, and the count grows by one |
| AppReducer.AddExpenseTouchesOneGroup | settle-frontend/src/context/AuthContext.jsx:26-36 | the expense heads its group's list, which is created if absent; other lists unchanged |
| AppReducer.SetExpensesReplacesOne | settle-frontend/src/context/AuthContext.jsx:37-43 | only that group's list is replaced |
| AppReducer.IgnoredActions | settle-frontend/src/context/AuthContext.jsx:44-49 | ADD_PAYMENT and unknown actions leave the state unchanged |
| AppReducer.ExpensesNewestFirst | settle-frontend/src/context/AuthContext.jsx:26-36 | after several ADD_EXPENSE actions for one group, its list is newest first ahead of what was cached |
| CreateGroupPage.GroupWizard.constructor | settle-frontend/src/pages/CreateGroupPage.jsx:10-15 | the wizard starts at step 1 with nothing entered |
| CreateGroupPage.GroupWizard.EditDetails | settle-frontend/src/pages/CreateGroupPage.jsx:115-119 | name and description are set on the first step |
| CreateGroupPage.GroupWizard.EditMemberEmail | settle-frontend/src/pages/CreateGroupPage.jsx:141 | the email field is set |
| CreateGroupPage.GroupWizard.AddMember | settle-frontend/src/pages/CreateGroupPage.jsx:17-27 | the trimmed email is appended and the field cleared iff it is non-empty and new; else nothing changes; the list keeps no duplicates |
| CreateGroupPage.GroupWizard.RemoveMember | settle-frontend/src/pages/CreateGroupPage.jsx:29-32 | the email is removed, the rest keep their order, and the list shrinks by one iff it was listed |
| CreateGroupPage.GroupWizard.Next | settle-frontend/src/pages/CreateGroupPage.jsx:34-43 | 1 → 2 only with a non-blank name, 2 → 3 always; the step stays in 1..3 |
| CreateGroupPage.GroupWizard.Back | settle-frontend/src/pages/CreateGroupPage.jsx:186 | back one step when past step 1, else leave the page |
| CreateGroupPage.GroupWizard.Request | settle-frontend/src/pages/CreateGroupPage.jsx:45-54 | the request carries the name, description and members as entered |
| CreateGroupPage.WizardRequestAccepted | settle-frontend/src/pages/CreateGroupPage.jsx:45-54 | from step 3 with at least one member, the server's field and member checks pass |
| CreateGroupPage.EmptyWizardRefused | settle-frontend/src/pages/CreateGroupPage.jsx:45-54 | with no member added, the server refuses the request |
| SettleUpPage.SettleForm.constructor | settle-frontend/src/pages/SettleUpPage.jsx:15-21 | the form starts with no groups, members, parties or amount, and the preselected group if one was passed |
| SettleUpPage.SettleForm.EditParties | settle-frontend/src/pages/SettleUpPage.jsx:116-156 | the parties and amount are set; group and members unchanged |
| SettleUpPage.SettleForm.SyncMembers | settle-frontend/src/pages/SettleUpPage.jsx:39-50 | a known group supplies the members and makes the user the payer; no selection empties the members; an unknown id changes nothing |
| SettleUpPage.SettleForm.SelectGroup | settle-frontend/src/pages/SettleUpPage.jsx:39-50 | choosing a group, then the effect's outcome |
| SettleUpPage.SettleForm.GroupsLoaded | settle-frontend/src/pages/SettleUpPage.jsx:25-50 | loading groups, then the effect's outcome |
| SettleUpPage.SettleForm.Submit | settle-frontend/src/pages/SettleUpPage.jsx:52-69 | empty field refused first, then from = to, then amount ≤ 0; otherwise the payload is exactly from, to and amount |
| SettleUpPage.SubmittedPaymentAccepted | settle-frontend/src/pages/SettleUpPage.jsx:52-69 | a payment the form sends passes the server checks for a member, with distinct parties and a positive amount |
| SettleUpPage.FormStricterThanServer | settle-frontend/src/pages/SettleUpPage.jsx:58-60 | the form refuses a payment to oneself that the server would accept |
| GroupsPage.Search | settle-frontend/src/pages/GroupsPage.jsx:33-36 | kept iff the lowercased name or non-empty description contains the lowercased term, each as often as listed |
| GroupsPage.FilteredAndSorted | settle-frontend/src/pages/GroupsPage.jsx:30-48 | a permutation of the matching groups, sorted by the chosen order |
| GroupsPage.OrderIsTotalPreorder | settle-frontend/src/pages/GroupsPage.jsx:37-46 | each of the three comparators is a total preorder |
| GroupsPage.EmptyTermKeepsAll | settle-frontend/src/pages/GroupsPage.jsx:33-36 | an empty search keeps every group |
| GroupsPage.MembersDescending | settle-frontend/src/pages/GroupsPage.jsx:41-42 | the members order gives non-increasing member counts |
| GroupsPage.NewestFirst | settle-frontend/src/pages/GroupsPage.jsx:43-45 | the date and default order give non-increasing creation times |
| GroupsPage.NamesAscending | settle-frontend/src/pages/GroupsPage.jsx:39-40 | the name order is ascending |
| GroupsPage.SearchIgnoresCase | settle-frontend/src/pages/GroupsPage.jsx:33-36 | a term and its lowercase find the same groups |
| GroupCard.Progress | settle-frontend/src/components/GroupCard.jsx:26-28 | 0 without positive spending; otherwise progress × total = settled × 100; ≥ 0 for non-negative totals |
| GroupCard.PercentReaches | settle-frontend/src/components/GroupCard.jsx:26-28 | a percentage of a positive total reaches (exceeds) 100 iff the part reaches (exceeds) the total |
| GroupCard.FullExactlyWhenSettled | settle-frontend/src/components/GroupCard.jsx:26-28 | the bar reaches 100 iff settled ≥ spent, and exceeds it iff settled > spent |
| GroupCard.ProgressNotClamped | settle-frontend/src/components/GroupCard.jsx:86 | example: 150 settled of 100 shows 150 |
| GroupCard.CardProgress | settle-frontend/src/components/GroupCard.jsx:26-28 | fed the server's summary: no progress without spending, full bar iff payments reach spending |
| AnalyticsPage.FoldTotalIsSum | settle-frontend/src/pages/AnalyticsPage.jsx:45 | the page's left fold equals the rows' sum |
| AnalyticsPage.PageTotalIsGroupSpending | settle-frontend/src/pages/AnalyticsPage.jsx:45 | the page total of the server's rows is the group's spending |
| AnalyticsPage.Share | settle-frontend/src/pages/AnalyticsPage.jsx:102 | a row's share × total = its amount × 100; undefined iff the total is 0 |
| AnalyticsPage.SharesAddUpTo100 | settle-frontend/src/pages/AnalyticsPage.jsx:102 | with a non-zero total the shares sum to 100 |
| AnalyticsPage.ShareWithinBounds | settle-frontend/src/pages/AnalyticsPage.jsx:108 | with non-negative rows and a positive total each share lies in [0, 100] |
| AnalyticsPage.AnalyticsView.constructor | settle-frontend/src/pages/AnalyticsPage.jsx:8-11 | nothing selected and no rows at first |
| AnalyticsPage.AnalyticsView.Select | settle-frontend/src/pages/AnalyticsPage.jsx:25-29 | the selection is set; clearing it empties the rows, so the total shown is 0; otherwise the rows are kept until new ones load |
| AnalyticsPage.AnalyticsView.Loaded | settle-frontend/src/pages/AnalyticsPage.jsx:35 | the fetched rows are shown |
| AnalyticsPage.AnalyticsView.Total | settle-frontend/src/pages/AnalyticsPage.jsx:45 | the view's total is the rows' sum |
| Scenarios.DinnerAccepted | settle-backend/src/controllers/expense.controller.js:36-57 | example: a 100 dinner paid by A and split evenly is accepted and leaves B owing A 50 |
| Scenarios.DinnerSettled | settle-backend/src/controllers/dashboard.controller.js:38-39 | example: after B pays A 50 both balances are 0 |
| Scenarios.OverOwedRejected | settle-backend/src/controllers/expense.controller.js:39-41 | example: shares that add to more than the amount are refused |

## Findings

| source | as written | input that shows it | evidently intended | confidence | as-written member | corrected member |
|---|---|---|---|---|---|---|
| settle-backend/src/controllers/expense.controller.js:36-41 | an entry without paid or owes makes that sum NaN, and `NaN > 0.01` is false, so the check passes; the schema then stores 0 | amount 100, entries [{A, paid 5, owes 100}, {B, owes 0}]: accepted and stored with Σpaid 5 | the sums are checked as stored, missing numbers counting 0 | high, not executed | ExpenseController.MissingPaidSkipsSumCheck | ExpenseController.StoredSumCheckKeepsBalance |
| settle-frontend/src/pages/AddExpensePage.jsx:84-94 | a custom split totals and charges every typed amount, including members deselected after typing (their field is hidden, lines 218-225) | members [a, b]; type 5 for a and b; deselect b; amount 10: the check passes and b owes 5 | only selected members' amounts are totalled and owed; an unselected member owes 0 | medium, not executed | AddExpensePage.DeselectedMemberStillOwes | AddExpensePage.DeselectedOwesNothing |

`ExpenseForm.Submit` and `LedgerStore.Ledger.AddExpense` model the code as
written. `AddExpensePage.CustomSharesAsWritten` is the form's sharing as written
and `AddExpensePage.CustomShares` the corrected one. `PassesStoredSumCheck` is the
corrected server check.

## Left out

- **Storage.** MongoDB persistence, queries and aggregation pipelines are replaced
  by explicit sequences and recursive sums. Order-dependent results are stated up
  to permutation.
- **Ids.** ObjectId validity is `Option<GroupId>`, where None is a malformed id.
  The cast error it throws is the `Thrown` failure, status 500. Malformed ids
  other than the group id in the URL are not modelled.
- **Sockets.** Socket.io rooms and emits are the returned list of `Event`s.
- **Email.** Delivery is left out; only the recipient set is modelled.
- **Opt-outs.** Whether a user has opted out is the `notifiable` parameter of
  `LedgerStore.Ledger.AddExpense` and `AddGroup`. `Users.Registry.Notifiable`
  computes it from the registry; the two stores are not joined in one class.
- **Uploads.** A Cloudinary upload is an `Upload` outcome passed in.
- **Authentication.** JWT signing and checking are left out. The acting user is
  given.
- **bcrypt.** A hash is `Digest(Plain(text))` and a comparison is equality under
  hashing. Salts and cost factors are left out.
- **Unreachable 500s.** The branches where `Expense.create`, `Payment.create` or
  `toObject` return nothing (expense.controller.js:59-61,
  payment.controller.js:32-34, user.controller.js:27) are left out. Those calls
  either return a document or throw.
- **Numbers.** IEEE doubles become `real`, with no rounding claims. A missing
  paid or owes in a request entry is modelled, as a NaN sum. Other non-numeric
  values (strings, null) in a request are not. `parseFloat` of form fields is
  left out, and parsed amounts are given as reals. A non-numeric amount in the
  add-expense form (NaN slips past `<= 0`) is not modelled.
- **Strings.** `toLowerCase` is ASCII lowercase and `trim` trims ASCII white space.
  `localeCompare` is lexicographic order on character codes. Dates are integers.
- **Email lookups.** Lookups by email are assumed to be normalised by the schema's
  lowercase and trim setters, as stored emails are.
- **Client I/O.** Fetches, effects' async timing, toasts, navigation and the
  socket subscription in the app context are left out. The client's HTTP calls
  end at the request value they would send.
- **Not modelled.** `GroupDetailPage`, `Dashboard`, `ProfilePage`, `AuthPage`,
  `Layout`, `ProtectedRoute`, `App`, the routes, `app.js`, `server.js` and the
  middleware are not part of this model.
- Users.Registry.Login: the 401 case is stated one way only. A refusal for a
  wrong password implies a stored user with that email whose password does not
  match. The converse is `Users.LoginFindsUser`, which assumes the emails are
  unique.
