# Rating service backend — a Dafny model

This project models the backend of a store-rating service. Users sign up, log in, and rate stores from 1 to 5. Owners see the ratings their stores received. Administrators create users and stores, list them with filters, and inspect single users.

The model covers the four route files of the backend:

- the store search and the rating submission (`stores.js`);
- the administrator routes (`admin.js`);
- signup, login and password change (`auth.js`);
- the owner dashboard (`owner.js`).

The database becomes in-memory tables behind a `Database` class. The class enforces the constraints the routes rely on: unique emails, one rating per (user, store) pair, and foreign keys. Its invariant `Valid()` also keeps every rating value between 1 and 5. No database constraint enforces that range: it holds because the rating route validates the value before every write.

Modules:

- `Common`: roles, the failures a route answers with and their HTTP status, and ASCII case-insensitive substring matching.
- `Schema`: the zod schemas written as data, with an interpreter that collects issues the way `safeParse` does. Each route's schema is proved to accept exactly the bodies that satisfy a plainly stated rule.
- `Aggregates`: sum and average, where an empty list has no average.
- `Tables`: rows, the idealised password hash, table queries, and the `Database` class (the query client).
- `Ledger`: the rating upsert as a function on the rating table, and the per-store and per-owner averages.
- `Filters`: the `where` objects and sort arguments the listings pass to the database.
- `StoresRoute`, `AdminRoute`, `AuthRoute`, `OwnerRoute`: one module per route file.

State-changing routes are methods on the `Database`:

- `StoresRoute.SubmitRating`
- `AdminRoute.CreateUser`
- `AdminRoute.CreateStore`
- `AuthRoute.SignUp`
- `AuthRoute.ChangePassword`

Their postconditions tie the new tables to the old ones. For example, a successful submission leaves the rating table equal to `Ledger.Upsert` of the old one. The properties of those functions are then proved as lemmas. Read-only routes are functions.

In three places the code does something other than what one would expect of the service, and the model follows the code:

- **No `sortBy` allow-list.** `sortBy` reaches the database's `orderBy` unchecked in all three listings. One would expect only a fixed set of columns to be sortable. It is modelled as passed through (`Filters.UserListingArgs`, `Filters.AdminStoreListingArgs`, `Filters.StoreSearchArgs`). The admin user listing can therefore be ordered by `passwordHash`.
- **A duplicate store email is not turned into a conflict.** Elsewhere a taken email answers 409, and one would expect the same here. The admin store creation has no such handler: a taken email or a missing owner makes `prisma.store.create` fail, and the error escapes the route. `AdminRoute.CreateStore` answers `Failure.Unhandled` in that case.
- **No retry on a duplicate-key error.** Rating submission does a look-up, then an update or a create. One would expect a write that loses a race for the same pair to be retried as an update. Nothing retries it, so no retry is modelled.

## Model

| member | source | states |
|---|---|---|
| Common.ParseRole | backend/src/routes/admin.js:16 | a string is accepted as a role exactly when it is the name of ADMIN, USER or OWNER |
| Common.Status | backend/src/routes/auth.js:24-71 | validation failures and a wrong old password answer 400, bad credentials 401, a missing account 404, conflicts 409; an uncaught query error gets no status from the route |
| Common.Utf16Length | backend/src/routes/auth.js:12-13 | lengths are counted in UTF-16 code units: between the number of characters and twice it, and equal to it for text in the Basic Multilingual Plane |
| Common.VerbatimOccurrenceMatches | backend/src/routes/admin.js:61-63 | a filter text that occurs verbatim in a column always passes the case-insensitive `contains` |
| Common.ContainsInsensitive | backend/src/routes/admin.js:61-63 | the empty text is contained in every value, and a text longer than the value never is |
| Schema.Search | backend/src/routes/auth.js:14-15 | a one-class pattern matches exactly when some character of the string is in the class |
| Schema.StringIssues | backend/src/routes/auth.js:12-15 | a string schema reports no issue exactly when every check passes, at most one issue per check, each under the field's path |
| Schema.ObjectIssues | backend/src/routes/auth.js:17-22 | an object schema reports no issue exactly when no field reports one |
| Schema.NameSchemaMeansRule | backend/src/routes/auth.js:18 | the name schema accepts exactly the names of 20 to 60 characters |
| Schema.PasswordSchemaMeansRule | backend/src/routes/auth.js:12-15 | the password schema accepts exactly passwords of 8 to 16 characters with a letter A–Z and a character outside A–Z, a–z, 0–9 |
| Schema.SignupSchemaMeansRule | backend/src/routes/auth.js:17-22 | the signup schema accepts exactly the bodies with a valid name, email, address of at most 400 characters and password |
| Schema.ParseSignup | backend/src/routes/auth.js:25-28 | signup parsing succeeds exactly when the signup rule holds, and then yields the body's four fields; a failure carries at least one issue |
| Schema.LoginSchemaMeansRule | backend/src/routes/auth.js:42 | the login schema accepts exactly a valid email with a non-empty password |
| Schema.ParseLogin | backend/src/routes/auth.js:42-46 | login parsing succeeds exactly when the login rule holds, and then yields the email and password |
| Schema.ChangePasswordSchemaMeansRule | backend/src/routes/auth.js:57 | the change-password schema accepts exactly a non-empty old password with a new password that passes the password rule |
| Schema.ParseChangePassword | backend/src/routes/auth.js:57-61 | change-password parsing succeeds exactly when that rule holds, and then yields both passwords |
| Schema.NewUserSchemaMeansRule | backend/src/routes/admin.js:11-17 | the admin user schema accepts exactly the signup rule plus a role that is ADMIN, USER or OWNER |
| Schema.ParseNewUser | backend/src/routes/admin.js:20-22 | admin user parsing succeeds exactly when that rule holds, and yields the fields with the named role |
| Schema.NewStoreSchemaMeansRule | backend/src/routes/admin.js:35-40 | the store schema accepts exactly a non-empty name, a valid email, an address of at most 400 characters, and an owner id that is absent or an integer |
| Schema.ParseNewStore | backend/src/routes/admin.js:43-45 | store parsing succeeds exactly when that rule holds, and yields the fields with the owner id if given |
| Schema.ParseRating | backend/src/routes/stores.js:38-42 | a rating is accepted exactly when it is a finite integer from 1 to 5, and the accepted value equals it; every issue is reported under `value` |
| Schema.IdParam | backend/src/routes/stores.js:43 | a route id reaches the query as an integer exactly when it is a finite integral number |
| Aggregates.Average | backend/src/routes/stores.js:32 | the average is null exactly for an empty list, and otherwise times the count gives the sum |
| Aggregates.Sum | backend/src/routes/stores.js:32 | no contract of its own: the left fold from 0 that `reduce` computes; `SumAppend`, `SumWithin`, `SumRemove` and `SumOfPermutation` state its properties |
| Aggregates.SumAppend | backend/src/routes/stores.js:32 | the sum of two lists joined is the sum of their sums |
| Aggregates.SumWithin | backend/src/routes/stores.js:32 | values within [lo, hi] sum to between lo and hi times the count |
| Aggregates.AverageWithin | backend/src/routes/stores.js:32 | values within [lo, hi] have an average within [lo, hi] |
| Aggregates.SumOfPermutation | backend/src/routes/stores.js:32 | the sum does not depend on the order of the values |
| Aggregates.AverageOfPermutation | backend/src/routes/admin.js:103 | the average does not depend on the order in which the database returns a store's ratings |
| Aggregates.FlattenTotals | backend/src/routes/admin.js:122 | flattening keeps every value: the count and the sum are those of all the lists |
| Aggregates.CountEachZero | backend/src/routes/admin.js:122-123 | the lists hold no value exactly when each of them is empty |
| Aggregates.FlattenWithin | backend/src/routes/admin.js:122 | flattening lists whose values are within [lo, hi] gives values within [lo, hi] |
| Aggregates.Flatten | backend/src/routes/admin.js:122 | the flattened list holds as many values as all the lists together |
| Aggregates.AverageOfFlatten | backend/src/routes/admin.js:122-123 | the pooled average is null exactly when every list is empty, and otherwise the total of all values over the total count |
| Aggregates.AverageOfFlattenWithin | backend/src/routes/admin.js:122-123 | pooling lists of ratings from 1 to 5 gives an average from 1 to 5 |
| Tables.Hash | backend/src/routes/auth.js:32 | a stored hash verifies its own password and no other |
| Tables.Verify | backend/src/routes/auth.js:49 | `compare` looks only at the password the hash was made from: it holds exactly when the hash is that password under the stored salt |
| Tables.CompareRehashes | backend/src/routes/auth.js:49 | `compare` accepts a password exactly when `hash` of it under the stored salt gives the stored hash |
| Tables.Select | backend/src/routes/admin.js:72-76 | a query keeps exactly the rows the condition holds for, and no more rows than the table has |
| Tables.Find | backend/src/routes/stores.js:46-48 | a unique look-up finds the first row the condition holds for, and nothing exactly when no row qualifies |
| Tables.UserWithEmail | backend/src/routes/auth.js:47 | the lookup by email finds nothing exactly when no account has the email, and otherwise an account with that email |
| Tables.UserWithId | backend/src/routes/auth.js:62 | the lookup by id finds nothing exactly when no user has the id, and otherwise a user with that id |
| Tables.RatingWithKey | backend/src/routes/stores.js:46-48 | the lookup by (user, store) finds nothing exactly when the user has not rated the store, and otherwise a rating of that pair |
| Tables.RatingsOf | backend/src/routes/stores.js:20-22 | a store's included ratings are rows of the table, each naming the store |
| Tables.RatingsOfNamesTheStore | backend/src/routes/admin.js:93-95 | a store's `ratings` relation holds exactly the rating rows that name the store |
| Tables.ValuesFor | backend/src/routes/admin.js:94 | the selected values are those of the store's ratings, one per rating, in order |
| Tables.Database.constructor | backend/src/routes/stores.js:6 | the tables start empty and consistent |
| Tables.Database.CreateUser | backend/src/routes/admin.js:28 | a user with a taken email is refused and nothing changes; otherwise exactly one row with the next id is appended; the tables stay consistent |
| Tables.Database.SetPasswordHash | backend/src/routes/auth.js:69 | only the password hash of the row with the id changes; an unknown id is refused |
| Tables.Database.CreateStore | backend/src/routes/admin.js:45 | a store with a taken email or an owner that is not a user is refused; otherwise exactly one row is appended |
| Tables.Database.CreateRating | backend/src/routes/stores.js:52 | a rating is refused when the pair is already rated or the user or store is missing; otherwise exactly one row is appended |
| Tables.Database.SetRatingValue | backend/src/routes/stores.js:51 | only the value of the row with the id changes |
| Tables.RatingAppendValid | backend/src/routes/stores.js:52 | appending a rating for an unrated pair of existing rows with a fresh id keeps the rating table consistent |
| Tables.RatingUpdateValid | backend/src/routes/stores.js:51 | changing one rating's value to 1..5 keeps the rating table consistent |
| Ledger.UpsertLeavesOneRating | backend/src/routes/stores.js:46-52 | after a submission the pair has exactly one rating, holding the submitted value, and every pair still has at most one |
| Ledger.Upsert | backend/src/routes/stores.js:46-52 | a resubmission keeps the row (its position, id, user and store) and changes only its value; a first submission appends one row with the fresh id; every other pair's rating stays as it was, in place |
| Ledger.UpsertGrowsIffNew | backend/src/routes/stores.js:50-52 | the table grows by one row exactly when the pair had no rating, and otherwise keeps its size |
| Ledger.SecondSubmissionWins | backend/src/routes/stores.js:46-52 | two submissions of a pair leave what the second alone would, with the first row's id |
| Ledger.UpsertKeepsIdsUnique | backend/src/routes/stores.js:52 | a submission with a fresh id keeps row ids distinct |
| Ledger.RatingsOfEmpty | backend/src/routes/stores.js:21 | a store's ratings are empty exactly when no row names the store |
| Ledger.ValuesForWithin | backend/src/routes/stores.js:21 | a store's values are 1 to 5 when every stored value is |
| Ledger.StoreAverage | backend/src/routes/stores.js:32 | a store's average is null exactly when nobody rated it, is otherwise the mean of its ratings, and lies in [1, 5] |
| Ledger.PortfolioAverage | backend/src/routes/admin.js:117-123 | an owner's average is null exactly when none of the owned stores has a rating, and otherwise lies in [1, 5] |
| Ledger.PortfolioNullIffStoresUnrated | backend/src/routes/admin.js:117-123 | an owner's combined average is null exactly when every owned store's own average is null |
| Ledger.OwnedStores | backend/src/routes/admin.js:118-120 | the owner's stores are exactly the stores whose `ownerId` is the owner |
| Aggregates.SumRemove | backend/src/routes/stores.js:32 | taking one value out of a list takes exactly that value out of its sum |
| Ledger.PortfolioEmpty | backend/src/routes/admin.js:118-123 | the pooled values are empty exactly when no rating names any store of the owner |
| Filters.BuildFilters | backend/src/routes/admin.js:58-66 | a key is added only for a non-empty parameter; name, email and address become case-insensitive `contains`, role an exact match; no parameters gives an empty filter |
| Filters.BuildFiltersSelects | backend/src/routes/admin.js:58-66 | a user passes the filter exactly when each given text occurs in its column ignoring case and the role equals the given role |
| Filters.AdminStoreFilters | backend/src/routes/admin.js:81-85 | the store filter holds a `contains` condition exactly for each non-empty name, email and address |
| Filters.AdminStoreFiltersSelect | backend/src/routes/admin.js:81-85 | a store passes exactly when each given text occurs in its column ignoring case |
| Filters.StoreSearchFilters | backend/src/routes/stores.js:11-16 | `q` filters the name and `address` the address, each only when non-empty |
| Filters.StoreSearchFiltersSelect | backend/src/routes/stores.js:11-16 | a store passes the search exactly when its name contains `q` and its address contains `address`, ignoring case, for each one given |
| Filters.OrderOf | backend/src/routes/admin.js:71 | the order is descending exactly when the parameter spells "desc" in any letter case, and ascending otherwise, also when absent |
| Filters.LowerIsDesc | backend/src/routes/admin.js:71 | lower-casing gives "desc" exactly for the sixteen capitalisations of "desc" |
| Filters.UserListingArgs | backend/src/routes/admin.js:69-75 | the user listing filters by `buildFilters`, sorts by `sortBy` (or `id` when missing or empty) in the normalised order; the listing uses its `where`; the ordering the database applies is not modelled |
| Filters.AdminStoreListingArgs | backend/src/routes/admin.js:81-92 | the store listing sorts by `sortBy` (or `id` when missing or empty) in the normalised order; the listing uses its `where`; the ordering the database applies is not modelled |
| Filters.StoreSearchArgs | backend/src/routes/stores.js:10-19 | the store search sorts by `sortBy` (or `name` only when missing), descending exactly for "desc" in any case; the search uses its `where`; the ordering the database applies is not modelled |
| StoresRoute.RatingMapHasRatedStores | backend/src/routes/stores.js:25-26 | the caller's map has a store exactly when the caller rated it |
| StoresRoute.RatingMapHoldsTheValue | backend/src/routes/stores.js:25-26 | with one rating per pair, the map holds the value of the caller's rating of the store |
| StoresRoute.RatingMap | backend/src/routes/stores.js:26 | the map's keys are exactly the stores the given rows name |
| StoresRoute.RatingsBy | backend/src/routes/stores.js:25 | the caller's ratings are exactly the rows the caller wrote |
| StoresRoute.RatingMapLastWins | backend/src/routes/stores.js:26 | when several rows name a store, the map keeps the value of the last one |
| StoresRoute.MyRating | backend/src/routes/stores.js:24-33 | `myRating` is null exactly when the caller has not rated the store, and is otherwise the caller's own rating value, never another user's |
| StoresRoute.SearchStores | backend/src/routes/stores.js:17-23 | the search keeps exactly the stores whose name and address contain the given texts |
| StoresRoute.ListStores | backend/src/routes/stores.js:28-34 | one entry per store the search keeps, entry k showing the id, name and address of the k-th kept store, with that store's average and the caller's rating |
| StoresRoute.ListStoresOnlyMatches | backend/src/routes/stores.js:11-17 | every listed store is a stored store whose name and address match the given parameters |
| StoresRoute.ListStoresShowsEveryMatch | backend/src/routes/stores.js:11-17 | every stored store matching the parameters is listed |
| StoresRoute.ListStoresInRange | backend/src/routes/stores.js:32-33 | with stored values of 1 to 5, every shown average and own rating is null or within 1 to 5 |
| StoresRoute.RatingMapInRange | backend/src/routes/stores.js:26 | the caller's map holds values from 1 to 5 when the table does |
| StoresRoute.SubmitRating | backend/src/routes/stores.js:40-55 | an invalid value answers 400 and writes nothing; a valid submission succeeds exactly when the pair is already rated or both the user and the store exist, and then the table becomes the upsert of the pair with the value and the reply is the pair's row; the rating counter advances exactly when a row is added; a failed write leaves the table as it was |
| StoresRoute.RatingIdFindsRow | backend/src/routes/stores.js:51 | with distinct ids, updating by the found row's id updates that row |
| StoresRoute.SubmissionIsShown | backend/src/routes/stores.js:24-52 | after a submission the caller's `myRating` for the store is the submitted value |
| AdminRoute.CreateUser | backend/src/routes/admin.js:19-33 | a body failing the schema answers 400; a taken email answers 409 "Email already exists" and writes nothing; otherwise exactly one user with the requested role and the hashed password is added; the user counter advances exactly when a user is added, and the other counters stay |
| AdminRoute.CreateStore | backend/src/routes/admin.js:42-47 | a body failing the schema answers 400; a refused write is not caught; otherwise exactly the given store is added |
| AdminRoute.Summary | backend/src/routes/admin.js:75 | no contract of its own: the selected columns id, name, email, address and role; `SummaryIgnoresHash` states that no hash reaches it |
| AdminRoute.SummaryIgnoresHash | backend/src/routes/admin.js:75 | two accounts that differ only in their hashes project to the same summary |
| AdminRoute.SelectSummaries | backend/src/routes/admin.js:72-76 | the listing holds the summary of every user the filter keeps and nothing else |
| AdminRoute.ListUsers | backend/src/routes/admin.js:68-78 | the listing holds exactly the users matching every given filter, without password hashes; an unknown role filter makes the query fail |
| AdminRoute.SelectSummariesIgnoresHashes | backend/src/routes/admin.js:75 | tables differing only in password hashes give the same listing |
| AdminRoute.ListUsersIgnoresHashes | backend/src/routes/admin.js:68-78 | which users are listed, and every listed field, do not depend on password hashes |
| AdminRoute.AdminSelectStores | backend/src/routes/admin.js:90-96 | the listing keeps exactly the stores that contain each given name, email and address text |
| AdminRoute.ListStores | backend/src/routes/admin.js:80-107 | one entry per store the filter keeps, entry k showing the id, name, email and address of the k-th kept store, with `rating` the store's average (null exactly when it has no ratings) |
| AdminRoute.ListStoresOnlyMatches | backend/src/routes/admin.js:81-104 | every listed store is a stored store matching the filters, shown as stored with its average |
| AdminRoute.ListStoresShowsEveryMatch | backend/src/routes/admin.js:81-104 | every stored store matching the filters is listed |
| AdminRoute.GetUser | backend/src/routes/admin.js:109-128 | the answer is a user exactly when the id is integral and names a user; an unknown id answers 404; otherwise the user without password hash, exactly the stores it owns, and for an owner, and only for an owner, the pooled average of those stores |
| AdminRoute.OwnerAverageInRange | backend/src/routes/admin.js:117-124 | an owner's average is null exactly when all its stores are unrated, and otherwise lies in [1, 5] |
| AuthRoute.ReplyFor | backend/src/routes/auth.js:37-38 | the token claims and the public user describe the same account: id, role and email |
| AuthRoute.SignUp | backend/src/routes/auth.js:24-39 | a body failing the schema answers 400; a registered email answers 409 and writes nothing; otherwise exactly one USER account with the hashed password is added and the reply names it; the user counter advances exactly when a user is added, and the other counters stay |
| AuthRoute.Login | backend/src/routes/auth.js:41-54 | a login succeeds exactly when the account under the email accepts the password, and answers for it; an unknown email and a wrong password give the same 401 |
| AuthRoute.LoginAfterSignUp | backend/src/routes/auth.js:32-53 | a newly signed-up account logs in with its password and is answered for |
| AuthRoute.WrongPasswordRefused | backend/src/routes/auth.js:49-50 | any other password than the account's own is refused |
| AuthRoute.ChangePassword | backend/src/routes/auth.js:56-71 | a bad body answers 400, a missing account 404, a wrong old password 400, each writing nothing; otherwise only the caller's hash becomes the hash of the new password; no id counter changes |
| AuthRoute.PasswordChangeTakesEffect | backend/src/routes/auth.js:65-70 | after a change the new password logs in and a different old one does not |
| OwnerRoute.RaterOf | backend/src/routes/owner.js:15 | the rater is null exactly when no user has the id, and otherwise that user's id, name and email |
| OwnerRoute.FeedbackFor | backend/src/routes/owner.js:24-26 | one entry per rating, keeping its id and value and naming its user |
| OwnerRoute.OwnerRatings | backend/src/routes/owner.js:20-27 | one entry per owned store, entry k naming the k-th owned store by id and name, with the store's average and the store's ratings |
| OwnerRoute.OwnerSeesOnlyOwnStores | backend/src/routes/owner.js:11-12 | every entry is a store the caller owns, under its own id and name |
| OwnerRoute.OwnerSeesEveryOwnStore | backend/src/routes/owner.js:11-12 | every store the caller owns has an entry |
| OwnerRoute.FeedbackIsTheStoresRatings | backend/src/routes/owner.js:24-26 | every listed rating is a rating of that store with the same id and value |
| OwnerRoute.AverageOfListedRatings | backend/src/routes/owner.js:23-26 | each store's average is the average of the ratings listed under it |
| OwnerRoute.EveryRaterNamed | backend/src/routes/owner.js:15 | when every rating names a stored user, every listed rating carries its user |

## Left out

- Token signing and verification: a reply carries the token's claims (`AuthRoute.Claims`), not a signed token. The signing key, the expiry and the fallback key are configuration. The authentication and role guards are not part of this model. The caller's id is a parameter of the routes that use it.
- Password hashing: bcrypt is an ideal salted hash. A hash verifies exactly the password it was made from. The random salt is a parameter, and the cost factor is not modelled.
- `Tables.Hash`: bcrypt's truncation of passwords after 72 bytes is not modelled. Two long passwords sharing their first 72 bytes verify against each other's hash in the source but not in the model.
- Email format: zod's email pattern is a parameter `isEmail`.
- Conversion of request data: the body is given as a JSON map of text, numbers and other values. `Number(req.body.value)` and `Number(req.params.id)` are given as the resulting numbers. Query parameters are single strings; repeated parameters are not modelled.
- Sorting: the listings return rows in table order. The order the database gives for `sortBy` and `order` (its collation and tie-breaking) is not modelled; the sort arguments are computed in `Filters`. A `sortBy` that is not a column makes the database reject the query. The column list lives in the database schema, which is not part of this model.
- `AdminRoute.ListUsersIgnoresHashes`: the listing's order is not covered. `sortBy` may name `passwordHash`, and then the order of the reply depends on the hashes; the model returns rows in table order, so the lemma speaks only of which users are listed and what is shown of them.
- `Common.ContainsInsensitive`: case-insensitive matching folds ASCII letters only. The database's Unicode case folding is not modelled.
- Floating-point division: averages are exact rationals. No rounding is modelled.
- Integer widths: ids and values are unbounded. The database's 32-bit integer columns are not modelled.
- Uncaught database errors: these are `Failure.Unhandled`. They carry no status, because the routes do not answer them.
- Race conditions: concurrent requests are not modelled. A look-up followed by a write is treated as atomic.
- The metrics route, server wiring, the seed script and the request-validation middleware are not part of this model.
- Row order on creation: ids come from a counter in the `Database` class. The database's own id sequence is not modelled.
