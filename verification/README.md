# Store ratings with user roles — a Dafny model

The system is a store-rating web application with three kinds of account:
system administrators, normal users and store owners. It has two halves,
and this project models both.

**The Express server (`server/index.js`).**
- Every protected route goes through a bearer-token gate, `authMiddleware`, and then a role guard, `roleMiddleware`.
- Accounts are created by `POST /auth/signup` and signed in by `POST /auth/login`; `PATCH /auth/password` changes a password.
- Administrators get a dashboard of counts, searchable lists of stores and users, and a user-detail view.
- A store owner sees the ratings of one store they own.
- Any signed-in user can list and search the stores, and can rate a store from 1 to 5 by an upsert on the (user, store) pair.

**The Next.js client.**
- An in-memory mock auth context (`contexts/auth-context.tsx`) holds the signed-in user, users, stores and ratings. It offers login, signup, adding users and stores, and submitting and reading ratings.
- The forms validate their fields: signup, add-user and add-store.
- The tables and grids filter by a search term.
- The store owner's widgets show statistics, the rating distribution and the customer list.
- The star-rating widget lets a user pick and submit a rating.

## How it is modelled

**Modules.** There is one Dafny module per source file or component:
- ServerAuth, ServerRules, ServerDb, ServerAccount, ServerAdmin and ServerStores model the server.
- AuthContext and FormRules model the client's shared state and its validation rules.
- SignupForm, AddUserDialog, AddStoreDialog, UsersTable, StoresTable, StoresGrid, StoreStats, RatingAnalytics, CustomerRatings and RatingComponent model the components.
- Wrappers, Seqs, Text and Stats are shared helpers: Option, filtering and search, characters and splitting, sums and averages.

**The database.** It is a value `Db` made of sequences of rows plus the autoincrement counters. `ServerDb.Valid` states the schema's guarantees:
- unique ids;
- unique emails;
- one rating per (user, store) pair;
- foreign keys that resolve;
- counters ahead of every key.

The Prisma schema file is not part of this model. Its constraints are inferred from how the routes use them: the `userId_storeId` compound key, the `P2002` handler and the foreign-key error path.

**Outside services are parameters.**
- `jwt.verify`, `jwt.sign`, `bcrypt.hash` and `bcrypt.compare` are passed in as functions.
- Each route is a function from the request and the database to a response, and to the new database where the route writes.
- The client's `Date.now()` ids and today's date are passed in as strings.
- `new Date(...).getTime()` is a function `stamp` passed in.
- A React component is modelled as its state plus pure event handlers.
- The context's operations, the action replay and the rating widget all use `submitRating` as written, stale cache included. The corrected `AuthContext.SubmitRatingFresh` appears only in the finding below.

**Where the code and the usual description of the system disagree, the model follows the code:**
- Signup stores the caller's requested role, upper-cased, with `USER` only as the default (`server/index.js:104`). It does not force `USER`.
- A rating update writes only `value`; `createdAt` is kept.
- The admin store search matches name, email and address, while the public search matches name and address only.
- The owner route reads only one store the owner has, whichever `findFirst` returns.
- The client's password and email rules are stricter than the server's, and its name rule is 20–60 characters against the server's 3–60 (`FormRules.ServerIsLooser`).

## Model

| member | source | states |
|---|---|---|
| ServerAuth.BearerToken | server/index.js:28-30 | the token is found exactly when the header starts with `Bearer ` followed by a non-space; it is the non-empty, space-free run at offset 7, ended by a space or the end of the header |
| ServerAuth.BearerShape | server/index.js:28-30 | the `split(" ")` test (first piece `Bearer`, second piece non-empty) agrees with the direct description used by `BearerToken` |
| ServerAuth.BearerPrefix | server/index.js:28 | a header beginning `Bearer ` splits into a first piece `Bearer` and at least one more piece |
| ServerAuth.BearerTail | server/index.js:28 | after a first piece `Bearer`, the second piece is the separator-free text that follows the first space |
| ServerAuth.Authenticate | server/index.js:24-40 | 401 "No token provided" for a missing or empty header; 401 "Invalid token format" for a malformed one; 401 "Invalid or expired token" when the verifier rejects a well-formed token; it passes exactly when the token verifies, and then carries that token's id and role; every refusal is a 401 |
| ServerAuth.Authorize | server/index.js:43-52 | 401 without a role; an empty role list lets everyone pass; otherwise it passes iff the role is listed, and is 403 "Access denied" when it is not |
| ServerAuth.Guard | server/index.js:24-52 | the token gate's refusal wins; otherwise the role guard decides |
| ServerAuth.WellFormedHeaderPasses | server/index.js:28-36 | `Bearer <token>`, with any space-led tail, carrying a verifiable token authenticates as that token's id and role |
| ServerAuth.MalformedHeadersRefused | server/index.js:28-30 | two spaces after `Bearer`, or any other scheme word, gives 401 "Invalid token format" |
| ServerAuth.WrongRoleForbidden | server/index.js:43-52 | a valid token whose role is not in the list is refused with 403; no header at all is refused with 401 before the role is looked at |
| ServerRules.SignupError | server/index.js:74-94 | no error iff name, email, address and password all pass; otherwise the first failing check, in source order, gives its exact message |
| ServerRules.LooseEmailShape | server/index.js:77 | `/^\S+@\S+\.\S+$/` holds iff the string has no whitespace, has an `@` that is neither first nor last, and has a dot after the character that follows some such `@`, with at least one character after the dot |
| ServerRules.NoWsJoin | server/index.js:77 | the three non-space runs around the `@` and the dot make a whitespace-free string |
| ServerRules.PasswordExamples | server/index.js:83-88 | too short, no uppercase letter or special character, too long, and missing are all rejected; `Valid1!a` is accepted |
| ServerDb.RowFor | server/index.js:403-405 | finds the row of the (user, store) compound key, or reports that there is none |
| ServerDb.Upsert | server/index.js:403-407 | an existing pair gets its value changed with nothing else touched; otherwise one row is appended with the new id and timestamp |
| ServerDb.UpsertKeepsUnique | server/index.js:403-407 | an upsert keeps every (user, store) pair unique |
| ServerDb.UpsertLastWriteWins | server/index.js:403-407 | two upserts on one pair leave one row holding the second value, with the first call's id and timestamp |
| ServerDb.UpdateRowKeepsValid | server/index.js:406 | changing only a rating's value keeps every schema constraint |
| ServerDb.AppendRowKeepsValid | server/index.js:407 | appending a rating for an existing user and store, on a pair not yet rated, keeps every schema constraint |
| ServerDb.WriteKeepsRange | server/index.js:403-407 | writing a star value into a ledger of star values, in place or as a new row, keeps every value within 1 to 5 |
| ServerDb.Values | server/index.js:220-231 | the star values of the rows, in order |
| ServerDb.RatingsOfStore | server/index.js:220-221 | exactly the rows of the given store |
| ServerDb.MyRating | server/index.js:375 | none iff the caller has no row among the store's ratings; otherwise the value of one of their rows |
| ServerDb.MyRatingIsLedgerValue | server/index.js:372-375 | with unique pairs, the `myRating` shown for a store is the value in the ledger's row for (caller, store), and none when there is no such row |
| ServerDb.StoreRatingRange | server/index.js:220-231 | a store's average is 0 iff it has no ratings, and otherwise lies between 1 and 5 when every value is a star value |
| ServerAccount.StoredRole | server/index.js:104 | a falsy role becomes `USER`; any other role is stored upper-cased |
| ServerAccount.StoredAddress | server/index.js:102 | an empty or missing address is stored as null; any other address is stored as given |
| ServerAccount.Signup | server/index.js:69-117 | 400 with the first validation message; 409 when the email is taken; 200 iff every check passes and the email is new, in which case exactly one user row is appended with the hashed password; any failure leaves the database unchanged |
| ServerAccount.SignupKeepsValid | server/index.js:98-113 | a signup keeps every schema constraint |
| ServerAccount.SignupHonoursRole | server/index.js:104 | a signup naming `admin` creates an `ADMIN` account, and one naming no role creates a `USER` |
| ServerAccount.UserByEmail | server/index.js:126 | finds the user with the email, or reports that there is none |
| ServerAccount.Login | server/index.js:120-144 | 400 when either field is missing; 401 "Invalid credentials" for an unknown email or a wrong password; 200 iff the password matches the stored hash, in which case the token is signed with the user's id and role |
| ServerAccount.LoginUniformFailure | server/index.js:127-131 | an unknown email and a wrong password give the same response |
| ServerAccount.FindAppended | server/index.js:98-107 | a user appended under a new email is the one found by that email |
| ServerAccount.SignupThenLogin | server/index.js:69-144 | after a successful signup, logging in with the same email and password succeeds for the new user |
| ServerAccount.LoginTokenAuthenticates | server/index.js:24-40 | the token a login issues, presented as `Bearer <token>`, passes the gate as the signed-in user |
| ServerAccount.UpdatePassword | server/index.js:147-174 | the gate's refusal is returned first; a password failing the signup rule gets 400; with a passing password the answer is 200 "Password updated" iff the caller's id is a user, and 500 otherwise; on 200 only the caller's hash changes; any failure leaves the database unchanged |
| ServerAccount.UpdatePasswordKeepsValid | server/index.js:147-174 | changing a password keeps every schema constraint |
| ServerAccount.PasswordRuleShared | server/index.js:83-94 | signup and password update reject exactly the same passwords, with the same message |
| ServerAdmin.Dashboard | server/index.js:179-197 | admins only; the counts are the numbers of users, stores and ratings |
| ServerAdmin.AdminStoreList | server/index.js:207-231 | every listed store matches the search in its name, email or address; every matching store is listed, with its average |
| ServerAdmin.AdminStoreListAll | server/index.js:207-231 | an empty search lists every store, in table order |
| ServerAdmin.AdminStores | server/index.js:200-238 | admins only; the body is the searched store list |
| ServerAdmin.AdminUserList | server/index.js:248-266 | every listed user matches the search and the role filter; every match is listed; an empty search and an empty filter list everyone, in table order; a role filter keeps only that role, compared upper-cased |
| ServerAdmin.AdminUsers | server/index.js:241-270 | admins only; the body is the filtered user list |
| ServerAdmin.OwnerStoreRating | server/index.js:286-292 | a rating is present iff the user is an `OWNER` who owns a store; it is the average of the first such store in table order |
| ServerAdmin.FirstOwnedIsFirstFiltered | server/index.js:286-292 | the first owned store in table order is the first one the filter keeps |
| ServerAdmin.AdminUserDetail | server/index.js:273-307 | admins only; 404 for an unknown id; otherwise the user's view, with the owner rating only for owners |
| ServerStores.OwnedStore | server/index.js:318-327 | none iff the owner owns no store; otherwise one of their stores |
| ServerStores.RaterOf | server/index.js:335-341 | a rating row joined with its user: the same user, value and date, and that user's name and email |
| ServerStores.OwnerRatings | server/index.js:312-349 | owners only; "No store linked" when the owner has none; otherwise the store's average and one rater per rating of that store, in ledger (table) order, each with the rating's user id, value and date and with that user's name and email |
| ServerStores.PublicStoreList | server/index.js:357-378 | every listed store matches the search in its name or address; every match is listed, with its average and the caller's own rating |
| ServerStores.EmailOnlyMatch | server/index.js:207-364 | a term found only in a store's email finds it in the admin search but not in the public one |
| ServerStores.ListStores | server/index.js:354-390 | any signed-in role is allowed; the body is the public store list for the caller |
| ServerStores.SubmitRating | server/index.js:393-414 | the gate's refusal is returned first; 400 unless the value is an integer from 1 to 5; for a star value the answer is 200 iff the pair already has a row or both the user and the store exist, and 500 otherwise; on 200 the ledger is the upsert for (caller, store) and the saved row is returned; a failure leaves the database unchanged |
| ServerStores.SubmitRatingKeepsValid | server/index.js:393-414 | rating keeps every schema constraint and keeps every value within 1 to 5 |
| ServerStores.SubmitThenMyRating | server/index.js:372-407 | after a successful rating, the store list shows the caller's own rating as the value just sent |
| ServerStores.StarValueBoundaries | server/index.js:399-401 | 0, 6, 3.5 and a non-number are refused; 1 and 5 are accepted |
| ServerStores.ResubmissionKeepsOneRow | server/index.js:403-407 | rating a store again changes the value but not the number of rows |
| AuthContext.Login | contexts/auth-context.tsx:121-130 | succeeds iff some user has that email and role, and then signs in such a user; on failure the state is unchanged |
| AuthContext.LoginIgnoresPassword | contexts/auth-context.tsx:121-130 | the mock login does not look at the password |
| AuthContext.Logout | contexts/auth-context.tsx:132-135 | signs the user out and changes nothing else |
| AuthContext.Signup | contexts/auth-context.tsx:137-155 | fails iff the email is in use, and then changes nothing; otherwise it appends one normal user with no rating and signs them in |
| AuthContext.SignupThenLogin | contexts/auth-context.tsx:121-155 | after a signup, a login with the same email as a normal user succeeds |
| AuthContext.AddUser | contexts/auth-context.tsx:157-166 | appends one user with the given role and no rating, and changes nothing else |
| AuthContext.AddUserAllowsDuplicateEmail | contexts/auth-context.tsx:137-166 | an email that signup refuses is still accepted by the admin's add-user |
| AuthContext.AddStore | contexts/auth-context.tsx:168-175 | appends one store with rating 0, and changes nothing else |
| AuthContext.UpdatePassword | contexts/auth-context.tsx:177-180 | always reports success and leaves the state as it was |
| AuthContext.PairIndex | contexts/auth-context.tsx:185 | the first rating of the (user, store) pair, or none when there is none |
| AuthContext.SetRatingById | contexts/auth-context.tsx:209-211 | rows with the id get the new value, with every other field kept; every other row is unchanged |
| AuthContext.WriteRating | contexts/auth-context.tsx:185-200 | an existing pair is updated in place; otherwise a new rating is appended; afterwards the pair's first rating holds the new value |
| AuthContext.WriteRatingKeepsUnique | contexts/auth-context.tsx:185-200 | writing a rating keeps the (user, store) pairs unique |
| AuthContext.ForStore | contexts/auth-context.tsx:203 | exactly the ratings of the given store |
| AuthContext.Stars | contexts/auth-context.tsx:204 | the star values of the ratings, in order |
| AuthContext.Round1 | contexts/auth-context.tsx:206 | `Math.round(x * 10) / 10` gives a whole number of tenths within 0.05 of x, with halves rounded up |
| AuthContext.Recache | contexts/auth-context.tsx:206 | the given store gets the new cached rating, and every other store and field is unchanged |
| AuthContext.SnapshotAverage | contexts/auth-context.tsx:203-204 | the average over the store's ratings read before the write, plus the new value, divided by their count plus one |
| AuthContext.SubmitRating | contexts/auth-context.tsx:182-207 | as written: with no user nothing changes; otherwise the rating is written and the store's cache becomes the rounded snapshot average |
| AuthContext.SubmitRatingFresh | contexts/auth-context.tsx:182-207 | as intended: the same write, but the cache becomes the rounded mean of the store's ratings after the write |
| AuthContext.SubmitRatingAgreesOnFirst | contexts/auth-context.tsx:182-207 | on a user's first rating of a store, the written and the intended versions give the same state |
| AuthContext.SubmitRatingStaleOnResubmit | contexts/auth-context.tsx:203-206 | when John rates store 1 again with 2, the written version caches 3.0 while the true mean, which the intended version caches, is 2.0 |
| AuthContext.UpdateRating | contexts/auth-context.tsx:209-211 | sets the value of the rating with the id, and leaves the user, users and stores unchanged |
| AuthContext.GetUserRatingForStore | contexts/auth-context.tsx:213-216 | none with no user; otherwise the signed-in user's first rating of the store |
| AuthContext.SubmitThenGet | contexts/auth-context.tsx:182-216 | after the as-written `submitRating`, the user's rating of the store holds the submitted value |
| AuthContext.ApplyKeepsInvariant | contexts/auth-context.tsx:121-211 | every context operation, with `submitRating` as written, keeps the (user, store) pairs unique, and one that writes only star values keeps every value within 1 to 5 |
| AuthContext.SubmitKeepsInvariant | contexts/auth-context.tsx:182-207 | the as-written `submitRating` of a star value keeps the pairs unique and the values within 1 to 5 |
| AuthContext.ReplayKeepsInvariant | contexts/auth-context.tsx:121-211 | any sequence of operations keeps the invariant |
| AuthContext.InitialKeepsInvariant | contexts/auth-context.tsx:53-105 | the mock data satisfies the invariant |
| FormRules.NameError | components/signup-form.tsx:33-37 | no error iff the name has 20–60 characters; "too short" below 20 and "too long" above 60 |
| FormRules.StrictEmailShape | components/signup-form.tsx:40-43 | the client's email pattern holds iff there is no whitespace, exactly one `@` with text on each side, and a dot after it that has text on each side |
| FormRules.EmailError | components/signup-form.tsx:40-43 | no error iff the email matches the client's pattern |
| FormRules.AddressError | components/signup-form.tsx:46-48 | no error iff the address has at most 400 characters |
| FormRules.PasswordError | components/signup-form.tsx:51-55 | no error iff the password has 8–16 characters, an uppercase letter and a listed special character |
| FormRules.Note | components/signup-form.tsx:33-55 | records a field's error when there is one, and leaves the errors as they were otherwise |
| FormRules.ContactErrors | components/admin/add-store-dialog.tsx:38-55 | a name, email or address error is recorded iff that field's rule fails, with that rule's message |
| FormRules.AccountErrors | components/signup-form.tsx:29-59 | each field has an error iff its rule fails; every message is non-empty; there are no errors iff every rule holds |
| FormRules.ClearOnEdit | components/signup-form.tsx:96-102 | editing a field clears its message and leaves every other message unchanged |
| FormRules.StrictPasswordPassesServer | components/signup-form.tsx:51-55 | a password the client accepts is accepted by the server |
| FormRules.StrictEmailPassesServer | components/signup-form.tsx:40-43 | an email the client accepts is accepted by the server |
| FormRules.NamePassesServer | components/signup-form.tsx:33-37 | a name the client accepts is accepted by the server |
| FormRules.ClientAcceptedIsServerAccepted | components/signup-form.tsx:29-59 | a signup the client form accepts passes every server check |
| FormRules.ServerIsLooser | components/signup-form.tsx:33-55 | `abc`, `a@b@c.d` and `Abcdefg_` pass the server's checks but not the client's |
| SignupForm.Validate | components/signup-form.tsx:29-59 | each field has an error iff its rule fails, and every recorded error is shown |
| SignupForm.Submit | components/signup-form.tsx:61-94 | the errors become the validation result; signup is called iff there are none, and then with the form's fields |
| SignupForm.SubmittedPassesServer | components/signup-form.tsx:61-94 | whatever the form submits would pass the server's signup checks |
| SignupForm.Edit | components/signup-form.tsx:96-102 | the field takes the new value, its error is cleared, and the other errors stay |
| AddUserDialog.Validate | components/admin/add-user-dialog.tsx:37-63 | each field has an error iff its rule fails |
| AddUserDialog.Submit | components/admin/add-user-dialog.tsx:65-87 | with errors, only the errors change; otherwise the user is added with the chosen role, and the form is reset and closed |
| AddUserDialog.Edit | components/admin/add-user-dialog.tsx:89-94 | the field takes the new value, its error is cleared, the other errors stay, and the dialog stays open or closed |
| AddUserDialog.ChooseRole | components/admin/add-user-dialog.tsx:89-94 | the role changes and its error is cleared |
| AddUserDialog.SubmitSkipsDuplicateCheck | components/admin/add-user-dialog.tsx:65-77 | the dialog adds a user even when the email is already in use |
| AddStoreDialog.StoreOwners | components/admin/add-store-dialog.tsx:36 | exactly the store-owner users, in order |
| AddStoreDialog.Validate | components/admin/add-store-dialog.tsx:38-62 | each field has an error iff its rule fails; a missing owner has its own message; no errors iff every rule holds |
| AddStoreDialog.Submit | components/admin/add-store-dialog.tsx:64-85 | with errors, only the errors change; otherwise the store is added with rating 0 and the form is reset |
| AddStoreDialog.Edit | components/admin/add-store-dialog.tsx:87-92 | the edited field (name, email, address or owner) takes the new value, its error is cleared, the other errors stay, and the dialog stays open or closed |
| UsersTable.FilteredUsers | components/admin/users-table.tsx:16-25 | an order-preserving subsequence holding exactly the users that match the search and the role filter |
| UsersTable.EmptySearchKeepsEveryone | components/admin/users-table.tsx:16-25 | an empty search with no role filter keeps every user |
| UsersTable.RoleFilterNarrows | components/admin/users-table.tsx:16-25 | filtering by a role is the unfiltered search, narrowed to that role |
| UsersTable.RoleBadgeVariant | components/admin/users-table.tsx:27-38 | destructive iff admin, default iff store owner, secondary iff normal user |
| UsersTable.RoleLabel | components/admin/users-table.tsx:40-51 | each role has its own label |
| UsersTable.RatingShown | components/admin/users-table.tsx:88 | the star is shown iff the user is a store owner with a non-zero rating |
| UsersTable.RatingStarCases | components/admin/users-table.tsx:88 | Mike's 4.2 is shown; a freshly added user shows none |
| UsersTable.NoUsersMessage | components/admin/users-table.tsx:102-104 | the "No users found" row appears iff no user matches |
| StoresTable.FilteredStores | components/admin/stores-table.tsx:13-20 | an order-preserving subsequence holding exactly the stores that match in name, email or address |
| StoresTable.EmptySearchKeepsAll | components/admin/stores-table.tsx:13-20 | an empty search keeps every store |
| StoresTable.NoStoresMessage | components/admin/stores-table.tsx:61-63 | the "No stores found" row appears iff no store matches |
| StoresTable.OwnerName | components/admin/stores-table.tsx:22-25 | the name of the first user with the id, or "Unknown Owner" |
| StoresTable.MockOwners | components/admin/stores-table.tsx:22-25 | with the mock data, the first store shows Mike and the second, whose owner is missing, shows "Unknown Owner" |
| StoresGrid.FilteredStores | components/user/stores-grid.tsx:14-20 | an order-preserving subsequence holding exactly the stores that match in name or address |
| StoresGrid.EmptySearchKeepsAll | components/user/stores-grid.tsx:14-20 | an empty search keeps every store |
| StoresGrid.EmptyCard | components/user/stores-grid.tsx:39-51 | the "No stores found" card appears iff no store matches |
| StoresGrid.GridWithinTable | components/user/stores-grid.tsx:14-20 | the user's grid result is the admin table's result, narrowed to name and address |
| StoreStats.OwnedStore | components/store-owner/store-stats.tsx:11 | none with no user, or iff the user owns no store; otherwise a store the user owns |
| StoreStats.StoreRatings | components/store-owner/store-stats.tsx:14 | exactly the ratings of the owned store, and none without one |
| StoreStats.AverageRange | components/store-owner/store-stats.tsx:17-18 | the average is 0 with no ratings, and otherwise between 1 and 5 |
| StoreStats.UniqueRaters | components/store-owner/store-stats.tsx:21 | the number of distinct raters is at most the number of ratings |
| StoreStats.UniqueRatersIsTotal | components/store-owner/store-stats.tsx:21 | with unique (user, store) pairs, every rating of one store has a distinct rater |
| StoreStats.RatingNoun | components/store-owner/store-stats.tsx:38 | "rating" iff exactly one, "ratings" otherwise |
| RatingAnalytics.CountStars | components/store-owner/rating-analytics.tsx:18 | the number of ratings with the given star, at most the total |
| RatingAnalytics.Percentage | components/store-owner/rating-analytics.tsx:19 | 0 with no ratings; otherwise the share of the total, times 100 |
| RatingAnalytics.Distribution | components/store-owner/rating-analytics.tsx:17-21 | five buckets for stars 5 down to 1, each holding its count and percentage |
| RatingAnalytics.StarCountsCoverAll | components/store-owner/rating-analytics.tsx:17-21 | with star values only, the five counts add up to the number of ratings |
| RatingAnalytics.PercentageScales | components/store-owner/rating-analytics.tsx:19 | the percentage is the count times 100 over the total |
| RatingAnalytics.SharesAddUp | components/store-owner/rating-analytics.tsx:19 | shares of counts that cover the total add up to 100 |
| RatingAnalytics.DistributionTotals | components/store-owner/rating-analytics.tsx:17-21 | with at least one star-valued rating, the counts add up to the total and the percentages to 100 |
| CustomerRatings.Insert | components/store-owner/customer-ratings.tsx:18 | inserting into a newest-first list gives a newest-first list with one more element |
| CustomerRatings.SortNewestFirst | components/store-owner/customer-ratings.tsx:18 | a permutation of the ratings ordered newest first |
| CustomerRatings.Listed | components/store-owner/customer-ratings.tsx:12-18 | the owned store's ratings, newest first |
| CustomerRatings.EmptyStateIffNoRatings | components/store-owner/customer-ratings.tsx:47-52 | the empty state appears iff the store has no ratings |
| CustomerRatings.UserName | components/store-owner/customer-ratings.tsx:20-23 | the rater's name, or "Unknown User" |
| CustomerRatings.UserEmail | components/store-owner/customer-ratings.tsx:25-28 | the rater's email, or "Unknown Email" |
| CustomerRatings.RatingColor | components/store-owner/customer-ratings.tsx:30-34 | default from 4 up, secondary at 3, destructive below 3 |
| RatingComponent.InitialSelection | components/user/rating-component.tsx:18-19 | the user's existing rating of the store, or 0 |
| RatingComponent.Handle | components/user/rating-component.tsx:55-62 | entering a star sets the hover, leaving clears it, and clicking selects the star |
| RatingComponent.Filled | components/user/rating-component.tsx:66 | star k is filled iff k is at most the hovered star, or the selected one when nothing is hovered; the filled stars are a prefix |
| RatingComponent.MountOk | components/user/rating-component.tsx:18-19 | a freshly mounted widget holds a selection from 0 to 5, given star-valued ratings |
| RatingComponent.EventsKeepOk | components/user/rating-component.tsx:55-62 | button events keep the selection and the hover from 0 to 5 |
| RatingComponent.Submit | components/user/rating-component.tsx:22-37 | with no selection, a destructive "please select" toast and no change; otherwise the selection goes through the context's `submitRating` as written, and the toast says "Rating updated" iff one existed, with "stars" iff the selection is more than 1 |
| RatingComponent.SubmitCachesStaleMean | components/user/rating-component.tsx:22-37 | John selecting 2 for store 1, which he had rated 4, gets "Rating updated" and his rating becomes 2, the store's only rating, yet the store is cached at 3.0 |
| RatingComponent.SubmitKeepsInvariant | components/user/rating-component.tsx:22-37 | submitting from a well-formed widget, through the context as written, keeps the pairs unique and the values within 1 to 5 |
| Stats.Average | server/index.js:220-231 | 0 for no values; otherwise the mean, as sum over count |
| Stats.AverageInStarRange | server/index.js:220-231 | the mean of a non-empty list of star values lies between 1 and 5 |
| Stats.AverageExamples | server/index.js:220-231 | the mean of 5, 3 and 4 is 4, and of nothing is 0 |

## Left out

- Network and framework plumbing is not modelled. This covers the HTTP transport, Express routing, Prisma queries as I/O, `console.error`, CORS and the port. A route is its pure handler.
- The password and token libraries are not modelled. `jwt.sign`, `jwt.verify`, `bcrypt.hash` and `bcrypt.compare` are functions passed in, and the model says nothing about token expiry or secrets.
- Number formatting is not modelled. Averages are exact reals; `toFixed`, `Math.round` in the display and floating-point error are not modelled.
- ServerAdmin.AdminStoreList, ServerAdmin.OwnerStoreRating, ServerStores.OwnerRatings and ServerStores.PublicStoreList give the exact mean. The source sends `Number(avg.toFixed(2))`, and that two-decimal floating-point rounding is not modelled.
- Server errors other than a duplicate email or a missing foreign key are not modelled. A thrown database error answers 500 in the source; the model has no such failures.
- Concurrent requests are not modelled. Each route is atomic, and the upsert race between two simultaneous ratings is not represented.
- ServerRules.NameOk, ServerRules.PasswordOk, ServerRules.AddressOk, FormRules.NameError, FormRules.AddressError and FormRules.StrictPassword count a string's length in Unicode scalar values, while JavaScript's `.length` counts UTF-16 code units. The two agree inside the Basic Multilingual Plane only: `"😀😀"` has length 4 in JavaScript and 2 here.
- Case-insensitive search and `toUpperCase` fold ASCII letters only. Unicode case mapping is not modelled. The JavaScript `\s` class is modelled exactly.
- A route parameter that is not a number, such as `/stores/abc/ratings`, is not modelled. `Number()` would give NaN there; the model takes an integer store id.
- ServerAdmin.OwnerStoreRating, ServerAdmin.FirstOwnedIsFirstFiltered, ServerAdmin.AdminStoreList, ServerAdmin.AdminStoreListAll, ServerAdmin.AdminUserList, ServerStores.OwnerRatings and ServerStores.PublicStoreList return query results in table order, and a rating row updated by an upsert keeps its place. None of the source's queries has an `orderBy`, so the database guarantees no row order. The order these members state is one order the database may return, not one it promises. For an owner with several stores, `user.stores[0]` may therefore be a different store from the one `OwnerStoreRating` picks. ServerStores.OwnedStore does not pick one: like `findFirst`, it promises only some store the owner has.
- ServerStores.OwnerRatings requires every rating to point at an existing user. The database's foreign key guarantees this, so the `include: { user }` join cannot miss.
- CustomerRatings.SortNewestFirst does not state stability. `Array.prototype.sort` is stable; the model only promises a newest-first permutation.
- UsersTable.RoleBadgeVariant and UsersTable.RoleLabel have no default case. The fall-through branches are unreachable once a role is one of the three datatype values.
- Browser and UI behaviour is not modelled. This covers `localStorage` persistence, the router redirects, `setTimeout` and the loading flag of the signup form, the toasts' rendering, icons and layout.
- The page files, the headers, the login form, the dashboard stats card, the store card and the seed script are not modelled. They only pass data to the components that are modelled.
- AuthContext.UpdatePassword: the mock keeps no passwords, so the new password is stored nowhere.
- The client stores a rating value as a number, which could be fractional. The model uses an integer, since only the star widget writes ratings.

## Findings

| source | as written | input that shows it | evidently intended | confidence | as-written member | corrected member |
|---|---|---|---|---|---|---|
| contexts/auth-context.tsx:203-206 | the store's cached rating is the average of the ratings read before the write, plus the new value, over their count plus one, so a user's earlier rating is counted again on a re-rating | in the mock data John (user 2) has rated store 1 with 4; when he re-rates it with 2, his row becomes 2, the store's only rating, yet the cache becomes (4 + 2) / 2 = 3.0 | the cache is the rounded mean of the store's ratings after the write, 2.0 in that example | not executed | AuthContext.SubmitRating, AuthContext.SubmitRatingStaleOnResubmit | AuthContext.SubmitRatingFresh, AuthContext.SubmitRatingAgreesOnFirst |
