# EnvelopeZero core, modelled in Dafny

EnvelopeZero is a personal envelope-budgeting service. Its Rust backend signs
users in with one-time e-mailed links and bearer sessions. Each user keeps
budgets, accounts, supercategories, categories, transactions with splits, and
monthly category assignments. Every row is owned by one user and is deleted by
stamping it. From these rows the backend computes an all-time dashboard and a
per-category month projection: assigned, activity and available. The React
client derives the budget table it shows from the API's answers.

This project models that core:

- `Common`: statuses, `Result`, `Option`, ids, the clock and calendar dates.
- `Text`: decimal digits, `String(n)`, `padStart` and ASCII white space.
- `Auth`:
  - e-mail normalisation and the e-mail check;
  - the bearer header;
  - token digests;
  - the session and magic-link lookups.
- `Validation`: `validate_splits` and `project_available`.
- `Calendar`: `parse_projection_month`, following chrono's `%Y-%m-%d` scanner (white space skipped before each numeric field, unsigned fields), and `to_char(month, 'YYYY-MM')`.
- `Tables`:
  - rows with an owner and a deletion stamp;
  - the ownership and liveness predicates of the SQL;
  - listing in creation order, soft delete and in-place update.
- `Ordering`: `order by <date> desc, created_at desc` as an insertion sort. Ids are handed out in creation order and stand for `created_at`.
- `Store`:
  - the whole database as one value;
  - its invariant `Valid`: unique ascending ids, parents owned by the row's owner, stored splits of the validated shape, and sessions, e-mails and budgets of existing users;
  - the single-budget rule;
  - each write as a state transition with a lemma that it keeps `Valid`.
- `Projection`:
  - the month projection loop;
  - the dashboard sums;
  - the transaction listing with its splits.
- `Api`: the class `Database`. It holds the feature flags (multi-budget, assignments), the public origin and the tables. It has one method per HTTP handler. Each method states the answer and the new tables for every branch of the handler, and keeps `Valid`.
- `Web`: the derivations of `App.tsx`:
  - `monthShift` and `activeBudget`;
  - `budgetRows`, `groupedRows`, `readyToAssign` and `overspentRows`;
  - the delta posted by `saveAssignment`.

The model follows the code as written; in particular:

- `create_budget` refuses with CONFLICT when the caller has any budget row, deleted ones included. `list_budgets` also lists deleted budgets.
- The update handlers match the caller's row with that id whether or not it is deleted. Deleting a row again re-stamps it.
- `create_transaction` and `update_transaction` validate the splits before they authenticate, so a malformed body is BAD_REQUEST even without a session.
- Moving an account, supercategory or category to another budget can leave its children in the old budget. `Valid` therefore promises only that every parent is owned by the child's owner, not that budgets agree across tables.
- Split rows whose category does not fit are dropped silently by the code (see Findings). The model's handlers refuse such requests instead.

## Model

| member | source | states |
|---|---|---|
| Common.MonthStartSameMonth | apps/api/src/lib.rs:863 | `date_trunc('month', ·)` puts two days together exactly when they share year and month; it is idempotent, and no day of a month precedes its month's start |
| Text.NatToString | apps/web/src/App.tsx:46 | `String(n)`: non-empty decimal digits, no leading zero, whose value is `n` |
| Text.PadLeft | apps/web/src/App.tsx:46 | `padStart(width, '0')`: digits whose value is `n`, of length `max(width, digits of n)` |
| Auth.TrimStart | apps/api/src/lib.rs:157 | the result is a suffix of the input; what was cut is all whitespace; it does not start with whitespace |
| Auth.TrimEnd | apps/api/src/lib.rs:157 | the result is a prefix; what was cut is all whitespace; it does not end with whitespace |
| Auth.Trim | apps/api/src/lib.rs:157 | the result is a slice of the input with whitespace-only text cut from both ends; a non-empty result neither starts nor ends with whitespace; an empty result means the input was all whitespace |
| Auth.LowerChar | apps/api/src/lib.rs:157 | an upper-case ASCII letter becomes the lower-case letter 32 code points above it; every other character is kept |
| Auth.ToLower | apps/api/src/lib.rs:157 | same length, each character lower-cased, and no upper-case letter is left |
| Auth.ToLowerFixedPoints | apps/api/src/lib.rs:157 | lower-casing leaves a text unchanged exactly when it has no upper-case letter, so it is idempotent |
| Auth.NormalizeEmail | apps/api/src/lib.rs:157 | the stored address has no upper-case letter and no whitespace at either end |
| Auth.NormalizeEmailCutsOnlyWhitespace | apps/api/src/lib.rs:157 | the stored address is the input minus whitespace-only ends, lower-cased; nothing else is lost |
| Auth.NormalizeEmailIdempotent | apps/api/src/lib.rs:157 | normalising a normalised address changes nothing |
| Auth.CheckEmail | apps/api/src/lib.rs:157-160 | Ok exactly with the normalised address when it is non-empty and contains `@`; otherwise BAD_REQUEST |
| Auth.CheckEmailBlank | apps/api/src/lib.rs:157-160 | every address made only of white space is refused |
| Auth.CheckEmailNoAt | apps/api/src/lib.rs:157-160 | every address without `@` is refused: normalising never introduces one |
| Auth.ExtractBearerToken | apps/api/src/lib.rs:300-306 | Ok if and only if the header is present, readable as visible ASCII and starts with `Bearer `; then the header is `Bearer ` + token; otherwise UNAUTHORIZED |
| Auth.BearerRoundTrip | apps/api/src/lib.rs:300-306 | the header `Bearer t` gives back exactly `t` |
| Auth.BearerExamples | apps/api/src/lib.rs:1046-1052 | `Bearer testtoken` gives `testtoken`; a missing header, `Basic …` and lower-case `bearer` are refused |
| Auth.LookupUserIdByTokenHash | apps/api/src/lib.rs:47-59 | None if and only if no session has this digest, is unrevoked and unexpired; otherwise the user of such a session |
| Auth.UserFromTokenHash | apps/api/src/lib.rs:317-325 | Ok exactly when the lookup found a user; a missing session is UNAUTHORIZED; a lookup error propagates |
| Auth.Authenticate | apps/api/src/lib.rs:308-315 | an accepted header carries the secret of an accepting session, and the caller is that session's user; every failure is UNAUTHORIZED |
| Auth.AuthenticateAccepts | apps/api/src/lib.rs:308-315 | conversely, a well-formed header whose token has an accepting session authenticates |
| Auth.UserFromTokenHashExamples | apps/api/src/lib.rs:1027-1044 | a found user is returned; a missing session is UNAUTHORIZED |
| Auth.FindUsableToken | apps/api/src/lib.rs:194-200 | the newest row with this digest that is unconsumed and unexpired; None exactly when there is no such row |
| Auth.ConsumeToken | apps/api/src/lib.rs:246-250 | the row with that id is stamped consumed; every other row is unchanged |
| Auth.ConsumedTokenIsRefused | apps/api/src/lib.rs:194-250 | once the matched row is consumed, the same token is refused at any later time (links are single use) |
| Auth.UnknownTokenIsRefused | apps/api/src/lib.rs:193-200 | a token that was never issued is refused |
| Auth.FreshTokenLifetime | apps/api/src/lib.rs:165-170 | a freshly issued link is found if and only if fewer than 15 minutes have passed |
| Validation.ValidateSplits | apps/api/src/lib.rs:586-604 | Ok if and only if the list is non-empty and every split has non-negative amounts with exactly one positive; otherwise BAD_REQUEST |
| Validation.CheckEachSplit | apps/api/src/lib.rs:591-601 | the loop accepts exactly when every split is well shaped |
| Validation.ValidateSplitsExamples | apps/api/src/lib.rs:1060-1084 | the unit-test cases: `[]`, negative, both positive and both zero are refused; one positive amount is accepted |
| Validation.ProjectAvailable | apps/api/src/lib.rs:766-768 | available plus outflow is inflow, so available is non-negative exactly when outflow does not exceed inflow |
| Validation.ProjectAvailableExample | apps/api/src/lib.rs:1054-1058 | 4500 in and 1200 out leave 3300 |
| Calendar.LeadingDigits | apps/api/src/lib.rs:826 | a numeric field takes at most its width of digits, greedily, stopping at the first non-digit |
| Calendar.LeadingDigitsOfField | apps/api/src/lib.rs:826 | a digit run followed by a non-digit is taken whole |
| Calendar.CutField | apps/api/src/lib.rs:826 | a cut field is a white-space run, then 1..width digits, then `-`, and the three pieces rebuild the text |
| Calendar.SplitYmd | apps/api/src/lib.rs:826 | the three cut fields, each after its white-space run, rebuild the text with `-` between them and have widths 4, 2, 2 |
| Calendar.SplitYmdExact | apps/api/src/lib.rs:826 | well-formed fields joined by `-` are cut back apart exactly |
| Calendar.DaysInMonth | apps/api/src/lib.rs:826 | between 28 and 31 days, 29 in February of a Gregorian leap year |
| Calendar.ParseYmd | apps/api/src/lib.rs:826 | Ok exactly when the text splits into white space and digit fields naming a valid calendar day, and then that day; otherwise BAD_REQUEST |
| Calendar.ParseProjectionMonth | apps/api/src/lib.rs:824-827 | an accepted month is day 1 of a month in 1..12; otherwise BAD_REQUEST |
| Calendar.ParseProjectionMonthShape | apps/api/src/lib.rs:824-827 | only `Y-M` text is accepted, each field optionally preceded by white space, with 1-4 year digits and a 1-2 digit month naming 1..12; it gives day 1 of that month |
| Calendar.ParseProjectionMonthAccepts | apps/api/src/lib.rs:824-827 | every text of that shape, white space included, is accepted (the converse direction) |
| Calendar.ParseProjectionMonthAcceptsUnpadded | apps/api/src/lib.rs:824-827 | every plain `Y-M` text with 1-4 year digits and a month in 1..12 is accepted |
| Calendar.ParseYmdFirstOfMonth | apps/api/src/lib.rs:826 | well-formed fields whose day is `01` and whose month is in 1..12 parse to day 1 of that month |
| Calendar.ParseProjectionMonthYear | apps/api/src/lib.rs:824-827 | an accepted year lies in 0..9999 |
| Calendar.StampedSplit | apps/api/src/lib.rs:825 | the day field cut from the stamped text is the appended `01` with no white space, and the year and month fields rebuild the month text |
| Calendar.ListedYear | apps/api/src/lib.rs:892 | the year `to_char` prints: the year itself from year 1 on, and 1 for year 0, which the database stores as 1 BC |
| Calendar.FormatMonth | apps/api/src/lib.rs:892 | `to_char(month, 'YYYY-MM')`: seven characters, four digits naming the listed year, `-`, two digits naming the month |
| Calendar.FormatMonthRoundTrip | apps/api/src/lib.rs:892 | a listed month text parses back to day 1 of the listed year's month: the month it was made from, from year 1 on |
| Calendar.FormatMonthYearZero | apps/api/src/lib.rs:892 | year 0 is listed exactly as year 1, so its text parses back to year 1 |
| Calendar.ParseProjectionMonthExample | apps/api/src/lib.rs:1086-1091 | `2026-02` is 1 February 2026 |
| Calendar.ParseProjectionMonthRejectsSlash | apps/api/src/lib.rs:1086-1091 | `2026/02` is refused |
| Calendar.ParseProjectionMonthRejectsMonth13 | apps/api/src/lib.rs:824-827 | month 13 is refused |
| Calendar.ParseProjectionMonthSkipsSpace | apps/api/src/lib.rs:824-827 | white space before a field is skipped: `2026- 2` is 1 February 2026 |
| Tables.ListLive | apps/api/src/lib.rs:405 | the listing holds exactly the owner's live rows |
| Tables.ListOwned | apps/api/src/lib.rs:352 | the listing holds exactly the owner's rows, deleted ones included |
| Tables.ListLiveAppend | apps/api/src/lib.rs:405 | listing distributes over later rows, so it keeps creation order |
| Tables.FindLiveOwned | apps/api/src/lib.rs:419 | a found parent is a live row of the caller with that id; None means every such row is deleted |
| Tables.SoftDelete | apps/api/src/lib.rs:453 | exactly the rows with that id and owner are stamped; every other row is unchanged |
| Tables.Replace | apps/api/src/lib.rs:436 | exactly the rows with that id and owner get the new payload; every other row is unchanged |
| Tables.IndexOwned | apps/api/src/lib.rs:436 | the row an update matches; None exactly when the caller owns no row with that id |
| Tables.SoftDeleteListing | apps/api/src/lib.rs:447-460 | after a delete the caller's listing is the old one without that id, in the same order |
| Tables.SoftDeleteIsolation | apps/api/src/lib.rs:453 | a delete never changes another user's listing |
| Tables.ReplaceIsolation | apps/api/src/lib.rs:436 | an update never changes another user's listing |
| Ordering.NewerOrSameTotal | apps/api/src/lib.rs:648 | any two rows are comparable under `date desc, created_at desc` |
| Ordering.NewerOrSameTransitive | apps/api/src/lib.rs:648 | the order is transitive |
| Ordering.Insert | apps/api/src/lib.rs:648 | insertion adds exactly the one row |
| Ordering.InsertKeepsOrder | apps/api/src/lib.rs:648 | insertion into a newest-first listing keeps it newest first |
| Ordering.SortNewestFirst | apps/api/src/lib.rs:648 | the sorted listing is a permutation of the rows |
| Ordering.SortNewestFirstSorted | apps/api/src/lib.rs:648 | the sorted listing is newest first and a permutation of the rows |
| Ordering.NewestFirstUnique | apps/api/src/lib.rs:648 | with unique ids there is only one newest-first order of a set of rows |
| Store.FindUserByEmail | apps/api/src/lib.rs:208-216 | the user of a row with that address; None exactly when no row has it |
| Store.LatestEmailIndex | apps/api/src/lib.rs:282 | the user's address verified last, unverified ones last; None exactly when the user has no address |
| Store.WithNewUser | apps/api/src/lib.rs:217-244 | the sign-up adds the user, its verified address, its magic-link auth method and its default budget, consumes two ids (user and budget), and changes no other table |
| Store.WithNewUserRegisters | apps/api/src/lib.rs:208-244 | after signing up an unknown address, looking it up finds the new user |
| Store.WithNewUserBudgets | apps/api/src/lib.rs:217-244 | a new user owns exactly one budget: "My Budget", USD, default |
| Store.WithNewUserValid | apps/api/src/lib.rs:217-244 | the sign-up keeps the store valid |
| Store.WithNewUserOneBudget | apps/api/src/lib.rs:217-244 | the sign-up keeps the single-budget rule |
| Store.SignIn | apps/api/src/lib.rs:208-261 | the matched token row is consumed and one 30-day session is appended for the known user of the address, or for a user created with it; a known address changes no user, address, auth method or budget; no other table changes |
| Store.SignInConsumesLink | apps/api/src/lib.rs:194-250 | after a sign-in the same link is refused at every later time |
| Store.SignInKeepsValid | apps/api/src/lib.rs:208-261 | signing in keeps the store valid and the single-budget rule; the session's user exists |
| Store.SignInValid | apps/api/src/lib.rs:246-261 | consuming the token and opening a session of an existing user keeps the store valid |
| Store.FindUserByEmailKnown | apps/api/src/lib.rs:208-216 | a registered address belongs to an existing user |
| Store.TokenRequestedValid | apps/api/src/lib.rs:165-179 | recording a token and a mail keeps the store valid |
| Store.AddBudgetOneBudget | apps/api/src/lib.rs:366-375 | with the CONFLICT check passed, inserting keeps the single-budget rule |
| Store.AuthenticatedCallerExists | apps/api/src/lib.rs:308-315 | an authenticated caller is an existing user |
| Store.AddBudgetValid | apps/api/src/lib.rs:376-383 | a non-default budget of an existing user keeps the store valid |
| Store.AddAccountValid | apps/api/src/lib.rs:419 | an account in a budget of the caller keeps the store valid |
| Store.UpdateAccountValid | apps/api/src/lib.rs:436 | moving an account to a budget of the caller keeps the store valid |
| Store.DeleteAccountValid | apps/api/src/lib.rs:453 | deleting an account keeps the store valid |
| Store.AddSupercategoryValid | apps/api/src/lib.rs:489 | a supercategory in a budget of the caller keeps the store valid |
| Store.UpdateSupercategoryValid | apps/api/src/lib.rs:500 | moving a supercategory keeps the store valid |
| Store.DeleteSupercategoryValid | apps/api/src/lib.rs:510 | deleting a supercategory keeps the store valid |
| Store.AddCategoryValid | apps/api/src/lib.rs:548 | a category under a budget and supercategory of the caller keeps the store valid |
| Store.UpdateCategoryValid | apps/api/src/lib.rs:559 | moving a category keeps the store valid |
| Store.DeleteCategoryValid | apps/api/src/lib.rs:569 | deleting a category keeps the store valid |
| Store.AddAssignmentValid | apps/api/src/lib.rs:917-924 | an assignment of a budget and category of the caller, for a parsed month, keeps the store valid |
| Store.AcceptedSplits | apps/api/src/lib.rs:684-688 | as written: the stored splits are exactly those whose category fits, in order |
| Store.AcceptedSplitsAppend | apps/api/src/lib.rs:684-688 | the as-written loop handles each split on its own: its result on a concatenation is its results on the parts, in order |
| Store.CategoryParentsFit | apps/api/src/lib.rs:548 | reference definition of the `create_category` joins: a live budget of the caller and a live supercategory of the caller in that budget; the category handlers are stated in it |
| Store.TransactionParentsFit | apps/api/src/lib.rs:681 | reference definition of the transaction insert's joins: a live budget of the caller and a live account of the caller in that budget; the transaction handlers are stated in it |
| Store.AssignmentParentsFit | apps/api/src/lib.rs:917-921 | reference definition of the assignment insert's joins: a live budget of the caller and a live category of the caller in that budget; `create_category_assignment` is stated in it |
| Store.CheckSplitCategories | apps/api/src/lib.rs:684-688 | corrected: Ok if and only if every split's category is a live category of the caller in the transaction's budget; otherwise BAD_REQUEST |
| Store.CheckSplitCategoriesAllOrNothing | apps/api/src/lib.rs:684-688 | the corrected check passes exactly when the as-written loop would store every split |
| Store.SplitSkipExample | apps/api/src/lib.rs:684-688 | two valid splits, the second in another budget: as written only the first is stored; the corrected check refuses |
| Store.SplitRows | apps/api/src/lib.rs:684-688 | one split row per input, in order, with the input's fields and consecutive new ids |
| Projection.DeleteSplitsOfListing | apps/api/src/lib.rs:720-724 | after stamping, the transaction lists no split and every other transaction lists the same splits |
| Store.AddTransaction | apps/api/src/lib.rs:681-688 | the transaction row, then its split rows, with fresh ids |
| Store.AddTransactionValid | apps/api/src/lib.rs:668-701 | with the caller's budget and account and checked splits, creating a transaction keeps the store valid |
| Store.DeleteSplitsOf | apps/api/src/lib.rs:720 | reference definition of `update transaction_splits set deleted_at=now()`: every split of the transaction is stamped, already deleted ones included, and the rest kept; `UpdateTransaction` is stated in it |
| Store.UpdateTransaction | apps/api/src/lib.rs:717-729 | payload replaced, all old splits stamped, new split rows appended |
| Store.UpdateTransactionValid | apps/api/src/lib.rs:703-742 | with the same checks, a full split replace keeps the store valid |
| Store.DeleteTransactionValid | apps/api/src/lib.rs:750 | deleting a transaction keeps the store valid |
| Projection.Assigned | apps/api/src/lib.rs:848 | reference definition of the assigned sum: the amounts of the live assignments of that category and month, 0 when there are none; the projection is stated in it |
| Projection.Activity | apps/api/src/lib.rs:855-863 | reference definition of the activity: outflow minus inflow over the live splits of that category whose live transaction falls in that month, 0 when there are none; the projection is stated in it |
| Projection.MonthProjection | apps/api/src/lib.rs:837-877 | one row per live category of the caller, in creation order, with its assigned sum, its activity, and available = assigned - activity |
| Projection.UntouchedCategoryIsZero | apps/api/src/lib.rs:847-869 | a category with no assignments and no splits shows 0 assigned and 0 activity |
| Projection.AssignmentAdds | apps/api/src/lib.rs:847-848 | assignments are additive: a new one adds its amount to its own category and month only |
| Projection.DeletedAssignmentsDoNotCount | apps/api/src/lib.rs:848 | rows with `deleted_at` set add nothing to a category's assigned sum |
| Projection.SplitCountsInItsMonthOnly | apps/api/src/lib.rs:855-863 | wherever a split sits, it adds its outflow minus inflow to the activity of its own category in its transaction's month, and nothing to any other category or month |
| Projection.TotalInflow | apps/api/src/lib.rs:775 | reference definition of `coalesce(sum(ts.inflow), 0)` over the caller's live splits of live transactions; the dashboard is stated in it |
| Projection.TotalOutflow | apps/api/src/lib.rs:775 | reference definition of `coalesce(sum(ts.outflow), 0)` over the same splits |
| Projection.ComputeDashboard | apps/api/src/lib.rs:770-787 | inflow and outflow are sums over the caller's live splits of live transactions; available is their difference |
| Projection.DashboardTotalsNonNegative | apps/api/src/lib.rs:774-775 | stored splits make both totals non-negative |
| Projection.DashboardIgnoresOtherUsers | apps/api/src/lib.rs:775 | splits of other users' transactions do not change the dashboard |
| Projection.LiveSplitsOf | apps/api/src/lib.rs:653 | exactly the transaction's live splits |
| Projection.LiveSplitsOfAppend | apps/api/src/lib.rs:653 | the listing of a concatenation is the listings of its parts, in order |
| Projection.UpdateTransactionReplacesSplits | apps/api/src/lib.rs:717-729 | after an update the transaction lists exactly its new split rows, and every other transaction's splits are untouched |
| Projection.ListTransactions | apps/api/src/lib.rs:643-666 | the caller's live transactions, each with its live splits, ordered by date, then creation, newest first |
| Projection.AttachSplits | apps/api/src/lib.rs:651-664 | each listed transaction paired with its live splits, in listing order |
| Api.TrimTrailingSlashes | apps/api/src/lib.rs:163 | a prefix of the origin that does not end in `/`; only slashes are cut |
| Api.SignInBody | apps/api/src/lib.rs:163-172 | the mail body is the fixed prefix, the origin without trailing slashes, `/?token=` and the token, which ends the body |
| Api.SignInBodyIgnoresTrailingSlashes | apps/api/src/lib.rs:163 | an origin with a trailing `/` gives the same link |
| Api.ViewOf | apps/api/src/lib.rs:924 | the returned row carries its fields, and its month text parses back to day 1 of the listed year's month, which is its own month from year 1 on |
| Api.Database.RequestMagicLink | apps/api/src/lib.rs:153-187 | a bad address is BAD_REQUEST and writes nothing; otherwise a 15-minute token row (digest only) and the sign-in mail are recorded, and the token is returned |
| Api.Database.VerifyMagicLink | apps/api/src/lib.rs:189-275 | no usable token: UNAUTHORIZED and nothing written; otherwise the sign-in transition, and the new session token with its user |
| Api.Database.Me | apps/api/src/lib.rs:277-291 | the caller with the address verified last; a caller without an address is a server error |
| Api.Database.ListBudgets | apps/api/src/lib.rs:347-358 | all the caller's budget rows, deleted included, in creation order |
| Api.Database.CreateBudget | apps/api/src/lib.rs:360-385 | CONFLICT when multi-budget mode is off and the caller has any budget; otherwise a non-default budget, currency defaulting to USD |
| Api.Database.ListAccounts | apps/api/src/lib.rs:400-411 | the caller's live accounts in creation order |
| Api.Database.CreateAccount | apps/api/src/lib.rs:413-427 | BAD_REQUEST unless the budget is a live budget of the caller; otherwise the new account is appended |
| Api.Database.UpdateAccount | apps/api/src/lib.rs:429-445 | BAD_REQUEST unless the budget is live and the caller's and the caller has that account; otherwise its payload is replaced |
| Api.Database.DeleteAccount | apps/api/src/lib.rs:447-460 | the caller's row with that id is stamped; NO_CONTENT either way |
| Api.Database.ListSupercategories | apps/api/src/lib.rs:474-482 | the caller's live supercategories |
| Api.Database.CreateSupercategory | apps/api/src/lib.rs:483-492 | as for accounts |
| Api.Database.UpdateSupercategory | apps/api/src/lib.rs:493-503 | as for accounts |
| Api.Database.DeleteSupercategory | apps/api/src/lib.rs:504-517 | as for accounts |
| Api.Database.ListCategories | apps/api/src/lib.rs:533-541 | the caller's live categories |
| Api.Database.CreateCategory | apps/api/src/lib.rs:542-551 | BAD_REQUEST unless a live budget and a live supercategory of the caller in that budget; otherwise appended |
| Api.Database.UpdateCategory | apps/api/src/lib.rs:552-562 | the same joins plus the caller's category row; otherwise BAD_REQUEST |
| Api.Database.DeleteCategory | apps/api/src/lib.rs:563-576 | as for accounts |
| Api.Database.ListTransactions | apps/api/src/lib.rs:643-666 | the sorted live transactions of the caller, each with its live splits |
| Api.Database.InsertTransaction | apps/api/src/lib.rs:681-688 | the insert loop produces the `AddTransaction` state |
| Api.Database.ReplaceTransaction | apps/api/src/lib.rs:717-729 | the update statements produce the `UpdateTransaction` state |
| Api.Database.CreateTransaction | apps/api/src/lib.rs:668-701 | invalid splits are BAD_REQUEST before authentication; parents and split categories must fit; then the transaction and its splits, answered with no splits |
| Api.Database.UpdateTransaction | apps/api/src/lib.rs:703-742 | the same checks plus the caller's transaction row; then a full split replace |
| Api.Database.DeleteTransaction | apps/api/src/lib.rs:744-757 | the caller's transaction is stamped; NO_CONTENT either way |
| Api.Database.Dashboard | apps/api/src/lib.rs:789-797 | the caller's all-time inflow, outflow and available |
| Api.Database.MonthProjection | apps/api/src/lib.rs:829-880 | authentication, then month parsing, then one projection row per live category |
| Api.Database.ListCategoryAssignments | apps/api/src/lib.rs:882-903 | NOT_FOUND while the feature is off; otherwise the caller's live assignments, latest month first, months as `to_char` lists them |
| Api.Database.CreateCategoryAssignment | apps/api/src/lib.rs:905-936 | NOT_FOUND while off, then authentication, then the month, then the joins; on success one additive assignment row, answered with the requested budget and category and a month text naming the listed month (the requested one from year 1 on) |
| Web.DashAt | apps/web/src/App.tsx:46 | the position of the first `-`, or the length |
| Web.ParseMonthText | apps/web/src/App.tsx:46 | a month exactly when the text is two non-empty digit runs, a dash between them, then nothing or a further dash; the values are those of the runs |
| Web.MonthText | apps/web/src/App.tsx:46 | the year's digits without leading zero, a dash, and two digits; the digits read back as year and month |
| Web.ShiftMonth | apps/web/src/App.tsx:46 | `new Date(y, m - 1 + d, 1)`: the month stays in 1..12, and years 0..99 are read as 1900..1999 |
| Web.MonthShift | apps/web/src/App.tsx:46 | an answer is given exactly when the text parses as a month, and it is the written form of the shifted month, which reads back as that month |
| Web.MonthTextRoundTrip | apps/web/src/App.tsx:46 | the written month reads back as the same month |
| Web.MonthShiftRollsOver | apps/web/src/App.tsx:46 | past December comes January of the next year; before January, December of the previous year |
| Web.MonthShiftWithinYear | apps/web/src/App.tsx:46 | within a year only the month moves |
| Web.MonthShiftRoundTrip | apps/web/src/App.tsx:46 | from year 100 on, forward then back (and back then forward, except from January 100) returns to the month |
| Web.MonthShiftTextRoundTrip | apps/web/src/App.tsx:46 | the same round trip on the month text |
| Web.MonthShiftCenturyExample | apps/web/src/App.tsx:46 | as written, back from `100-01` gives `99-12`, and forward from there gives `2000-01` |
| Web.ShiftMonthFixed | apps/web/src/App.tsx:46 | corrected step, with the year taken as written: the month stays in 1..12 |
| Web.ShiftMonthFixedRoundTrip | apps/web/src/App.tsx:46 | every corrected step is undone by the opposite step |
| Web.ActiveBudget | apps/web/src/App.tsx:74 | the first default budget, else the first budget; none only without budgets |
| Web.LastProjection | apps/web/src/App.tsx:97 | the `Map` lookup: the last projection of that category |
| Web.LastName | apps/web/src/App.tsx:97 | the `Map` lookup: the last supercategory name for that id |
| Web.SupercategoryName | apps/web/src/App.tsx:98 | the last name stored for the id when it is non-empty, else `Uncategorized`; never empty |
| Web.KeptCategories | apps/web/src/App.tsx:98 | exactly the categories of the active budget, or all of them |
| Web.KeptCategoriesAppend | apps/web/src/App.tsx:98 | the filter works row by row, so it keeps the categories' order |
| Web.BudgetRows | apps/web/src/App.tsx:96-99 | one row per kept category, in order, with its ids, its name and its supercategory's display name; the three figures of the category's last projection, or zeros without one |
| Web.NoActiveBudgetKeepsAll | apps/web/src/App.tsx:98 | without an active budget every category gets a row |
| Web.BudgetRowsBalance | apps/web/src/App.tsx:96-99 | when the projections balance, every row has available = assigned - activity |
| Web.FirstAppearance | apps/web/src/App.tsx:100 | the distinct supercategory ids of the rows, in order of first appearance |
| Web.GroupedRows | apps/web/src/App.tsx:100 | one group per supercategory in order of first appearance, named after its first row, holding its rows in order |
| Web.GroupingKeepsEveryRow | apps/web/src/App.tsx:100 | the groups' rows, put back together, are a permutation of the rows |
| Web.SumAssignedBounds | apps/web/src/App.tsx:101 | the sum of non-negative amounts is non-negative, of zeros zero |
| Web.ReadyToAssign | apps/web/src/App.tsx:101 | never more than what is available when every assigned amount is non-negative; all of it when nothing is assigned |
| Web.ReadyAfterAssign | apps/web/src/App.tsx:101 | assigning `delta` more to one row leaves `delta` less ready to assign |
| Web.OverspentRows | apps/web/src/App.tsx:102 | exactly the rows with a negative available amount |
| Web.OverspentKeepsOrder | apps/web/src/App.tsx:102 | the filter keeps the table's order |
| Web.FindRow | apps/web/src/App.tsx:107 | the first row of that category |
| Web.SaveAssignment | apps/web/src/App.tsx:105-110 | nothing without a session, an active budget or a row; nothing when the target is already assigned; otherwise a non-zero delta for the active budget that brings the row to the target |
| Web.SavedAssignmentReachesTarget | apps/web/src/App.tsx:105-110 | posting the delta brings the month's assigned sum of the category to the target |

## Left out

- LiveSplitsOf: lists a transaction's splits in insertion order. The SQL orders them by `created_at`, which ties for the splits written by one request, so their order there is not fixed.
- ProjectAvailable: does not model the `i64` overflow of `inflow - outflow`.
- Integer width: amounts, sums and counts are unbounded integers. The `i64` overflow of the sums and of `assigned - activity` is not modelled.
- chrono's `%Y` also accepts a leading sign. The scanner models unsigned fields only.
- chrono skips Unicode white space before each numeric field; the scanner skips ASCII white space only.
- `trim` and `to_lowercase` are modelled on ASCII: ASCII whitespace and the letters A-Z. Unicode whitespace and case mapping are not modelled.
- `send_magic_link_email` (SMTP) and its result: the mail is recorded in the outbox only. The link is never sent.
- `random_token`: magic-link and session tokens are parameters of the handlers.
- `sha256_hex`: a digest is a constructor over the token. It is injective by construction, which is all the handlers rely on.
- Database failures and the 500 answers they produce are not modelled. Neither are `month_projection`'s `unwrap_or_default` and `unwrap_or((0,))` fallbacks. Every statement is assumed to succeed, and transactions commit atomically.
- Concurrency between requests is not modelled: each handler runs alone.
- `passkey_disabled`, `seed_dev_data`, `health` and the router are not modelled. They hold no logic beyond a flag or fixed data.
- Generated `pillid` text ids and UUIDs are not modelled. Ids are natural numbers from one counter, handed out in creation order; they stand for `created_at`.
- Api.Database.VerifyMagicLink: returns the user's id rather than a separately stored `pillid` of the user.
- The join on `users` in every insert is not modelled. The invariant guarantees that the caller exists.
- Web.ShiftMonth: years past 275760, beyond the range of JavaScript's `Date`, are shifted as plain numbers; the client's `getFullYear()` would give `NaN` there.
- Web.MonthShift: such years give the text of the shifted number rather than `NaN-NaN`, and digit runs beyond 2^53 are read exactly rather than rounded by `Number()`.
- Web.ParseMonthText and Web.MonthShift: `Number()` parsing of anything but decimal digit runs is not modelled (signs, spaces, exponents, empty parts become None). Neither are the year and month parts beyond the second `-`.
- `currency` formatting and the division by 100 in floating point are not modelled. Amounts stay integer cents.
- React state, effects, `fetch`, local storage, toasts and `selectedRow` are not modelled. The derivations are functions of the state they read.
- Api.Database.CreateTransaction and Api.Database.UpdateTransaction: the refusal of a split with a misfitting category is the corrected behaviour (see Findings). As written, such a split is skipped silently.

## Findings

| source | as written | input that shows it | evidently intended | confidence | as-written member | corrected member |
|---|---|---|---|---|---|---|
| apps/api/src/lib.rs:684-688 | each split is inserted by `insert .. select` with `execute`; when the category is deleted, foreign or in another budget the select finds no row, nothing is inserted, no error is raised, and the transaction commits with fewer splits | two valid splits, the second naming a category of the caller in another budget: only the first split is stored | the request is refused with BAD_REQUEST and nothing is written, like every other reference violation | not executed | Store.AcceptedSplits, Store.SplitSkipExample | Store.CheckSplitCategories, Store.CheckSplitCategoriesAllOrNothing |
| apps/web/src/App.tsx:46 | `new Date(y, m - 1 + direction, 1)` reads a year from 0 to 99 as 1900 to 1999 | one step back from `100-01` gives `99-12`, and one step forward from `99-12` gives `2000-01`, not `100-01` | a step back followed by a step forward returns to the same month | not executed | Web.MonthShiftCenturyExample | Web.ShiftMonthFixed, Web.ShiftMonthFixedRoundTrip |
