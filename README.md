# Student points wallet — a Dafny model

This project models the back end of the student points wallet. The back end is a mock API and a
simulated Firebase authentication service. Both keep all their state in the browser's key-value
storage. The model covers three parts.

- **Ledger and requests** (`MockApi`, over `Ledger` and `Collections`).
  - Users, rewards, transactions and point requests are lists held in the storage.
  - Recording a transaction appends it to the ledger and credits its user.
  - Redeeming a reward takes one unit of stock and debits the user.
  - A point request is created PENDING and is then approved or rejected, once.
  - An administrator can adjust a balance directly.
  - Users have create and update operations; rewards have create, update and delete.
- **Accounts and sessions** (`FirebaseAuth`, over `Text`).
  - Sign-up validates its input and rejects e-mails already registered, ignoring case.
    Its password-length check counts UTF-16 units, as JavaScript's `length` does.
  - It gives the account a sequential display id per role, like `STU004` or `ADMIN002`.
  - Sign-in migrates legacy accounts, then opens a session.
  - Sign-out closes the session, and a profile update refreshes it.
- **Initial data** (`Seed`): three students, one admin, three rewards and five transactions. They
  are written once, guarded by the `dw_seeded` flag. `resetData` clears everything and seeds again.

`Storage.LocalStore` is one class with one field per storage key. Each exported call of the
source that writes storage is a method over that store. The method says which keys it may change
with a field-granular `modifies` clause (`resetData`, which removes every key, may change all of
them), and states their new values.

The calls that only read are functions:

- `getUserById` and `login` are `Collections.GetUserById` and `MockApi.Login`, applied to the list stored under `dw_users`;
- `getTransactionsByUser` is `Collections.TransactionsByUser`, applied to the list under `dw_transactions`;
- `getPointRequestsByUser` is `Collections.RequestsByUser`, applied to the list under `dw_point_requests`;
- `getCurrentUser` and `isAuthenticated` read the store's `fb_currentUser` and `fb_session` fields.

`signIn` searches a different list from `login`: `fb_users`, or `dw_users` while `fb_users` is
empty (`FirebaseAuth.SignInUsers`).

The central invariant is `Ledger.Consistent`. It says that every user's `points` equal the sum of
the amounts of that user's transactions. The model proves four things about it:

- the seeded data satisfies it;
- every call that records a transaction preserves it, assuming user ids are unique, and states
  this as an `ensures` clause;
- `Ledger.RecordPreservesConsistency` is the shared lemma behind those calls;
- a sign-up preserves it, assuming the new id has no transactions yet
  (`FirebaseAuth.SignUpKeepsLedgerConsistent`).

Behaviour the model keeps as the code has it, which a reader might not expect:

- an amount of zero is typed `REDEEM`, not `EARN` (`mockApi.ts:168`);
- a transaction for an unknown user is still appended to the ledger, and no balance moves;
- `createPointRequest` checks neither the sign of the amount nor the reason;
- `login` returns the stored record with its password (see Findings);
- a `signIn` whose credentials fail has still copied `dw_users` into an empty `fb_users`;
- `updateProfile` writes only `fb_users`, never `dw_users`;
- `createTransaction` credits `dw_users` only, so `fb_users` copies of balances go stale.

## Model

| member | source | states |
|---|---|---|
| Types.PointsUpdateToCurrentIsNoOp | student-points-wallet/src/lib/mockApi.ts:405 | spreading `{ points: u.points }` over `u` gives `u` back |
| Types.PointsUpdate | student-points-wallet/src/lib/mockApi.ts:178 | the update `{ points: p }`, with no other field present (also at line 405) |
| Types.PointsUpdateSetsPoints | student-points-wallet/src/lib/mockApi.ts:178 | spreading `{ points: p }` over a user sets its points to `p` and keeps every other field |
| Types.QuantityUpdate | student-points-wallet/src/lib/mockApi.ts:203 | the update `{ quantity: q }`, with no other field present |
| Types.QuantityUpdateSetsQuantity | student-points-wallet/src/lib/mockApi.ts:203 | spreading `{ quantity: q }` over a reward sets its stock to `q` and keeps every other field |
| Types.WithoutPassword | student-points-wallet/src/lib/firebaseAuth.ts:128 | the `{ password: _, ...rest }` copy: every field of the account except the password (also at lines 180 and 268) |
| Types.GenerateToken | student-points-wallet/src/lib/firebaseAuth.ts:47-58 | the token's content: the user id, the issue time and an expiry 24 hours later |
| Types.MergeUser | student-points-wallet/src/lib/mockApi.ts:75 | the spread `{ ...u, ...updates }`: each field present in the update takes its value, each absent one keeps the user's |
| Types.MergeReward | student-points-wallet/src/lib/mockApi.ts:115 | the spread `{ ...r, ...updates }`: each field present in the update takes its value, each absent one keeps the reward's |
| Text.ToLower | student-points-wallet/src/lib/firebaseAuth.ts:89 | case folding keeps the length, turns each upper-case letter into its lower-case letter (code + 32), leaves no upper-case letter and changes no other character |
| Text.SameEmail | student-points-wallet/src/lib/firebaseAuth.ts:89 | two e-mails agree after both are folded to lower case (also at line 166) |
| Text.Utf16Length | student-points-wallet/src/lib/firebaseAuth.ts:80 | `length` counts UTF-16 units: between one and two per character, exactly one each when every character is in the Basic Multilingual Plane |
| Text.Utf16LengthSingle | student-points-wallet/src/lib/firebaseAuth.ts:80 | one character is one unit up to U+FFFF and two units above it |
| Text.Utf16LengthAppend | student-points-wallet/src/lib/firebaseAuth.ts:80 | the units of a concatenation are the sum of the units of its parts |
| Text.AstralCharactersCountTwice | student-points-wallet/src/lib/firebaseAuth.ts:80 | three emoji above U+FFFF are six units, so they meet the six-unit minimum |
| Text.DecimalString | student-points-wallet/src/lib/firebaseAuth.ts:100 | `String(n)` is non-empty, all digits, and starts with `0` only for zero |
| Text.ParseDecimalString | student-points-wallet/src/lib/firebaseAuth.ts:100 | reading back the digits of `String(n)` gives `n` |
| Text.ParseIgnoresLeadingZeros | student-points-wallet/src/lib/firebaseAuth.ts:100 | zeros placed in front of a digit string do not change its value |
| Text.PadStart | student-points-wallet/src/lib/firebaseAuth.ts:100 | `padStart` yields the longer of the string and the width, ends with the string unchanged and is filled in front |
| Collections.UserIndex | student-points-wallet/src/lib/mockApi.ts:73 | a found index holds the id and no earlier user has it; not found means no user has the id |
| Collections.RewardIndex | student-points-wallet/src/lib/mockApi.ts:113 | a found index holds the id and no earlier reward has it; not found means no reward has the id |
| Collections.RequestIndex | student-points-wallet/src/lib/mockApi.ts:305 | a found index holds the id and no earlier request has it; not found means no request has the id |
| Collections.GetUserById | student-points-wallet/src/lib/mockApi.ts:37-44 | null only when no user has the id; otherwise a stored user with that id, the first one |
| Collections.TransactionsByUser | student-points-wallet/src/lib/mockApi.ts:136-143 | the result holds exactly the ledger's transactions for that user and is no longer than the ledger |
| Collections.RequestsByUser | student-points-wallet/src/lib/mockApi.ts:247-254 | the result holds exactly the stored requests of that user and is no longer than the list |
| Collections.TransactionsByUserSnoc | student-points-wallet/src/lib/mockApi.ts:140 | filtering a ledger extended by one transaction extends the result by it exactly when it is the user's |
| Collections.TransactionsByUserAppend | student-points-wallet/src/lib/mockApi.ts:140 | filtering a concatenation is the concatenation of the filtered parts, in order |
| Collections.TransactionsByUserSingle | student-points-wallet/src/lib/mockApi.ts:140 | a single transaction is kept exactly when it is the user's |
| Collections.RequestsByUserSnoc | student-points-wallet/src/lib/mockApi.ts:251 | filtering a request list extended by one request extends the result by it exactly when it is the user's |
| Collections.RequestsByUserAppend | student-points-wallet/src/lib/mockApi.ts:251 | filtering a concatenation is the concatenation of the filtered parts, in order |
| Collections.RequestsByUserSingle | student-points-wallet/src/lib/mockApi.ts:251 | a single request is kept exactly when it is the user's |
| Collections.WithoutReward | student-points-wallet/src/lib/mockApi.ts:371-373 | the filter keeps exactly the rewards with another id, and is shorter exactly when some reward had the id |
| Collections.WithoutRewardAppend | student-points-wallet/src/lib/mockApi.ts:371 | filtering a concatenation is the concatenation of the filtered parts, in order |
| Collections.WithoutRewardSingle | student-points-wallet/src/lib/mockApi.ts:371 | a single reward is kept exactly when it has another id |
| Collections.UpdatedUsers | student-points-wallet/src/lib/mockApi.ts:69-79 | the written-back list has the same length and is the old list when no user has the id |
| Collections.UpdatedRewards | student-points-wallet/src/lib/mockApi.ts:109-119 | the written-back list has the same length and is the old list when no reward has the id |
| Collections.UpdatedUsersEffect | student-points-wallet/src/lib/mockApi.ts:73-75 | only the first user with the id changes, to the spread of the update over it |
| Collections.UpdatedRewardsEffect | student-points-wallet/src/lib/mockApi.ts:113-115 | only the first reward with the id changes, to the spread of the update over it |
| Collections.UserIndexFollowsIds | student-points-wallet/src/lib/mockApi.ts:73 | rewriting fields other than `id` does not move the first user with a given id |
| Collections.RequestIndexFollowsIds | student-points-wallet/src/lib/mockApi.ts:305 | rewriting fields other than `id` does not move the first request with a given id |
| Ledger.Balance | student-points-wallet/src/lib/mockApi.ts:136-143 | the balance a ledger implies for a user: the sum of the amounts of `getTransactionsByUser` for that user |
| Ledger.Consistent | student-points-wallet/src/lib/mockApi.ts:149-183 | the invariant `createTransaction` keeps: every stored user's `points` equal that user's balance |
| Ledger.TypeFor | student-points-wallet/src/lib/mockApi.ts:168 | the type is EARN exactly when the amount is positive and REDEEM exactly when it is zero or negative |
| Ledger.Credit | student-points-wallet/src/lib/mockApi.ts:174-179 | crediting keeps the number of users and leaves the list as it was when no user has the id |
| Ledger.BalanceAfterAppend | student-points-wallet/src/lib/mockApi.ts:170-172 | appending a transaction moves only its own user's balance, by its amount |
| Ledger.CreditEffect | student-points-wallet/src/lib/mockApi.ts:174-179 | with unique ids the named user's points rise by exactly the amount, every other user is unchanged, and an unknown id changes nothing |
| Ledger.CreditKeepsUniqueIds | student-points-wallet/src/lib/mockApi.ts:174-179 | crediting keeps user ids unique |
| Ledger.RecordPreservesConsistency | student-points-wallet/src/lib/mockApi.ts:149-183 | appending a transaction and crediting its user keeps every balance equal to the sum of its transactions, whether or not the user is stored |
| Ledger.CreditedUser | student-points-wallet/src/lib/mockApi.ts:174-179 | after a credit the user found under the id is the one found before with `points + amount` |
| Ledger.AdjustAppliesOnce | student-points-wallet/src/lib/mockApi.ts:398-405 | the second balance write of `adjustUserPoints` leaves the credited list as it is |
| Ledger.AddUserPreservesConsistency | student-points-wallet/src/lib/firebaseAuth.ts:119-122 | adding a user whose points equal its balance keeps the invariant |
| Ledger.NoTransactionsZeroBalance | student-points-wallet/src/lib/firebaseAuth.ts:111 | a user with no transactions has balance 0, the points a new account starts with |
| MockApi.CreateUser | student-points-wallet/src/lib/mockApi.ts:49-64 | the record is returned and appended to both `dw_users` and `fb_users` |
| MockApi.UpdateUser | student-points-wallet/src/lib/mockApi.ts:69-79 | an unknown id fails with "User not found" and changes nothing; otherwise the first match is spread with the updates and returned |
| MockApi.CredentialIndex | student-points-wallet/src/lib/mockApi.ts:220 | the first user whose e-mail and password both match exactly; none when no user matches |
| MockApi.Login | student-points-wallet/src/lib/mockApi.ts:215-230 | success returns the first stored user with exactly that e-mail and password, as `find` does; failure means no user matches and gives "Invalid email or password" |
| MockApi.LoginLeaksPassword | student-points-wallet/src/lib/mockApi.ts:227-229 | a successful login of a sample student returns the record with its password |
| MockApi.LoginWithoutPassword | student-points-wallet/src/lib/mockApi.ts:226-227 | success returns the first matching user without its password; failure means no user matches |
| MockApi.CreateReward | student-points-wallet/src/lib/mockApi.ts:96-104 | the reward is returned and appended as given |
| MockApi.UpdateReward | student-points-wallet/src/lib/mockApi.ts:109-119 | an unknown id fails with "Reward not found" and changes nothing; otherwise the first match is spread with the updates and returned |
| MockApi.DeleteReward | student-points-wallet/src/lib/mockApi.ts:366-379 | when no reward has the id it fails with "Reward not found" and changes nothing; otherwise every reward with the id is removed and no other |
| MockApi.CreateTransaction | student-points-wallet/src/lib/mockApi.ts:149-183 | exactly one transaction, typed by the sign of the amount, is appended after the old ledger; its user, if stored, is credited; the ledger invariant is preserved |
| MockApi.RedemptionReason | student-points-wallet/src/lib/mockApi.ts:206 | the recorded reason is "Redeemed: " followed by the reward's title, unchanged |
| MockApi.RedeemRejection | student-points-wallet/src/lib/mockApi.ts:193-200 | the first failing check of a redemption in the code's order (reward found, in stock, user found, affordable), or none |
| MockApi.RewardChecksComeFirst | student-points-wallet/src/lib/mockApi.ts:193-200 | a missing or out-of-stock reward is reported whatever the users are |
| MockApi.RedeemAcceptedIsAffordable | student-points-wallet/src/lib/mockApi.ts:193-200 | when every check passes, the reward and user exist, the stock stays non-negative and the balance covers the cost |
| MockApi.DecrementKeepsStockNonNegative | student-points-wallet/src/lib/mockApi.ts:202-203 | taking one unit from a reward in stock keeps every quantity non-negative |
| MockApi.RedeemReward | student-points-wallet/src/lib/mockApi.ts:189-209 | errors come in the order not found, out of stock, user not found, insufficient points, and change nothing; success takes one unit of stock, appends one debit of the cost named "Redeemed: " + title and debits the user; stock non-negativity and the ledger invariant are preserved |
| MockApi.CreatePointRequest | student-points-wallet/src/lib/mockApi.ts:260-291 | an unknown user fails with "User not found" and stores nothing; otherwise one PENDING request with the user's current name, the given amount and reason, and no reviewer is appended |
| MockApi.ReviewRejection | student-points-wallet/src/lib/mockApi.ts:305-311 | the first failing check of a review: request found, then still PENDING |
| MockApi.Reviewed | student-points-wallet/src/lib/mockApi.ts:314-319 | the reviewed request: the given status, review date and reviewer, every other field kept (also at lines 350-355) |
| MockApi.SecondReviewRefused | student-points-wallet/src/lib/mockApi.ts:309-311 | after a request is approved or rejected, a second review of it is refused as already reviewed |
| MockApi.ApprovePointRequest | student-points-wallet/src/lib/mockApi.ts:297-327 | unknown or already-reviewed requests fail and change nothing; otherwise only that request becomes APPROVED by the admin, one transaction with its user, amount and reason is recorded, and the ledger invariant is preserved |
| MockApi.RejectPointRequest | student-points-wallet/src/lib/mockApi.ts:333-360 | unknown or already-reviewed requests fail and change nothing; otherwise only that request becomes REJECTED by the admin, and no user or transaction changes |
| MockApi.AdjustUserPoints | student-points-wallet/src/lib/mockApi.ts:385-409 | an unknown user fails and changes nothing; otherwise one transaction "Admin adjustment: " + reason is appended, the balance moves by the adjustment once, without a lower bound, and the ledger invariant is preserved |
| MockApi.AdjustmentReason | student-points-wallet/src/lib/mockApi.ts:402 | the recorded reason is "Admin adjustment: " followed by the given reason, unchanged |
| MockApi.Message | student-points-wallet/src/lib/mockApi.ts:195-200 | the message text of each error the mock API throws |
| FirebaseAuth.AuthErrorCodes | student-points-wallet/src/lib/firebaseAuth.ts:74-95 | the errors thrown by `signUp`, `signIn` (lines 146-173) and `updateProfile` (lines 256-259): each code names one failure, except `auth/invalid-input`, shared by sign-up and sign-in with different messages |
| FirebaseAuth.RolePrefix | student-points-wallet/src/lib/firebaseAuth.ts:100 | the display-id prefix: `STU` for a student, `ADMIN` for an administrator |
| FirebaseAuth.PaddedNumber | student-points-wallet/src/lib/firebaseAuth.ts:100 | `String(n).padStart(3, '0')`; its shape and value are stated by PaddedNumberReadsBack |
| FirebaseAuth.CountRole | student-points-wallet/src/lib/firebaseAuth.ts:99 | the count is the number of positions holding an account with the role, so at most the number of accounts |
| FirebaseAuth.PaddedNumberReadsBack | student-points-wallet/src/lib/firebaseAuth.ts:100 | the padded number has at least three characters, never fewer than its digits, is all digits and reads back as the number |
| FirebaseAuth.StudentIdFor | student-points-wallet/src/lib/firebaseAuth.ts:98-100 | the role's prefix followed by the padded count of that role plus one; its shape is proved by StudentIdShape |
| FirebaseAuth.StudentIdShape | student-points-wallet/src/lib/firebaseAuth.ts:98-100 | a display id is the role's prefix followed by at least three digits whose value is one more than the number of accounts with that role |
| FirebaseAuth.NextIdIsSequential | student-points-wallet/src/lib/firebaseAuth.ts:99-100 | registering an account raises the next number of its own role by one and leaves the other role's number |
| FirebaseAuth.EmailTaken | student-points-wallet/src/lib/firebaseAuth.ts:88-91 | some registered account has the e-mail, ignoring case |
| FirebaseAuth.NewAccount | student-points-wallet/src/lib/firebaseAuth.ts:103-112 | the new account: generated id, the given name, e-mail, password and role, the next display id, no phone and 0 points |
| FirebaseAuth.SignUpRejection | student-points-wallet/src/lib/firebaseAuth.ts:72-96 | each error is reported exactly when its check is the first to fail: a missing field, then a password shorter than 6 UTF-16 units, then an e-mail taken ignoring case; the sign-up is accepted exactly when all three pass |
| FirebaseAuth.SignUpKeepsEmailsDistinct | student-points-wallet/src/lib/firebaseAuth.ts:88-96 | an accepted sign-up keeps registered e-mails distinct ignoring case |
| FirebaseAuth.SignUp | student-points-wallet/src/lib/firebaseAuth.ts:63-135 | a rejection changes nothing; otherwise an account with 0 points, no phone, the role and the next display id is appended to both user lists, and a session is opened for it without the password |
| FirebaseAuth.SignUpKeepsLedgerConsistent | student-points-wallet/src/lib/firebaseAuth.ts:102-122 | appending the new account, with 0 points, to `dw_users` keeps the ledger invariant when no transaction has its id |
| FirebaseAuth.SignInUsers | student-points-wallet/src/lib/firebaseAuth.ts:152-163 | the list `signIn` searches and writes back: `fb_users`, or `dw_users` when `fb_users` is empty |
| FirebaseAuth.SignInIndex | student-points-wallet/src/lib/firebaseAuth.ts:165-167 | the first account whose e-mail matches ignoring case and whose password matches exactly; none when no account matches |
| FirebaseAuth.SignInIndexAppend | student-points-wallet/src/lib/firebaseAuth.ts:165-167 | appending an account leaves an earlier match where it was, and is found only if it matches itself |
| FirebaseAuth.SignUpThenSignIn | student-points-wallet/src/lib/firebaseAuth.ts:115-167 | after a sign-up, signing in with the same password and the e-mail in any letter case finds the new account |
| FirebaseAuth.ExactLoginSignsIn | student-points-wallet/src/lib/firebaseAuth.ts:165-167 | credentials that the exact comparison of `login` accepts on a list are accepted by the comparison of `signIn`, ignoring case, on that list |
| FirebaseAuth.LegacyLoginSignsIn | student-points-wallet/src/lib/firebaseAuth.ts:153-167 | while `fb_users` is empty, credentials `login` accepts on `dw_users` are accepted by `signIn`, which then searches `dw_users` |
| FirebaseAuth.SignIn | student-points-wallet/src/lib/firebaseAuth.ts:140-187 | a missing field fails and changes nothing; otherwise an empty `fb_users` is first filled from `dw_users`, failed credentials leave the session alone, and success stores the user without password and a token, so the user is authenticated |
| FirebaseAuth.SignOut | student-points-wallet/src/lib/firebaseAuth.ts:192-201 | the session user, the token and the legacy key are removed; nobody is authenticated and there is no current user |
| FirebaseAuth.GetCurrentUser | student-points-wallet/src/lib/firebaseAuth.ts:206-215 | the stored session user, or none |
| FirebaseAuth.IsAuthenticated | student-points-wallet/src/lib/firebaseAuth.ts:220-223 | a session token is stored |
| FirebaseAuth.UpdateProfile | student-points-wallet/src/lib/firebaseAuth.ts:248-274 | an unknown id fails with `auth/user-not-found` and changes nothing; otherwise only that `fb_users` record is spread with the updates, and the session user is refreshed exactly when it has that id |
| Seed.SampleUsers | student-points-wallet/src/lib/seed.ts:19-60 | Alice (150), Bob (200) and Charlie (75) as students `STU001`-`STU003`, and the admin `admin-001` with 0 points |
| Seed.SampleRewards | student-points-wallet/src/lib/seed.ts:63-85 | the coffee voucher (50 points, 20 in stock), the movie ticket (100, 10) and the bookstore discount (75, 15) |
| Seed.SampleTransactions | student-points-wallet/src/lib/seed.ts:88-129 | two earnings for Alice (50, 100), two for Bob (150, 50) and one for Charlie (75) |
| Seed.SampleRewardsWellFormed | student-points-wallet/src/lib/seed.ts:63-85 | every sample reward has positive cost and non-negative quantity |
| Seed.SampleTransactionsAreEarnings | student-points-wallet/src/lib/seed.ts:88-129 | every sample transaction has a positive amount and the type recording it would give, EARN |
| Seed.SampleBalances | student-points-wallet/src/lib/seed.ts:19-129 | the sample ledger gives Alice 150, Bob 200, Charlie 75 and anyone else 0 |
| Seed.SampleUserIdsUnique | student-points-wallet/src/lib/seed.ts:19-60 | the sample users' ids are distinct when the generated ids are |
| Seed.SampleDataConsistent | student-points-wallet/src/lib/seed.ts:19-129 | the sample users and transactions satisfy the ledger invariant |
| Seed.Seeded | student-points-wallet/src/lib/seed.ts:143-159 | a first seeding puts the same sample users in both user keys, the sample rewards and transactions in theirs, and sets the flag; point requests and the session are kept |
| Seed.SeedStep | student-points-wallet/src/lib/seed.ts:135-161 | `seedData` as a state change: the store as it was when the flag is "true", otherwise the first seeding |
| Seed.SeedIdempotent | student-points-wallet/src/lib/seed.ts:135-141 | seeding twice has the effect of seeding once |
| Seed.SeededStateConsistent | student-points-wallet/src/lib/seed.ts:135-161 | after seeding, the stored users and ledger satisfy the invariant |
| Seed.SeedData | student-points-wallet/src/lib/seed.ts:135-161 | the store becomes the seeding step applied to the old store: unchanged when flagged, otherwise the sample data and the flag |
| Seed.ResetData | student-points-wallet/src/lib/seed.ts:166-184 | whatever the store held, it becomes the sample data with no point requests and no session, and it satisfies the ledger invariant |

## Left out

- Delays, `Math.random` and logging have no effect on the stored data, so they are not modelled.
- The storage itself, with `JSON.parse` and `JSON.stringify`, is not modelled. Each key is a field, and an absent list key reads as the empty list, as every reader of the source does.
- Generated ids, dates and the clock (`generateUID`, `new Date().toISOString()`, `Date.now()`) are parameters of the methods. All clock reads within one call are a single `now`, so a token's expiry is exactly 24 hours after its issue time, where the code's two `Date.now()` calls may differ by a millisecond or more.
- The session token is the datatype of what it encodes: user, issue time and expiry 24 hours later. The `btoa` string format is not modelled.
- `toLowerCase` is modelled on ASCII letters only. Unicode case mapping is not modelled.
- Each exported call is one sequential step. The interleavings possible between its `await`s are not modelled.
- JavaScript numbers are unbounded integers here. Floating-point rounding is not modelled.
- `resetPassword` only logs, so it is not modelled.
- The `window.resetData` hook and all React components are not modelled. Their client-side input guards are not part of the API.
- `getUsers`, `getRewards`, `getTransactions` and `getPointRequests` are reads of the store's fields, not separate members.
- `getCurrentUser` does not model the `null` it returns when the stored text fails to parse.
- The core files only ever remove the legacy `currentUser` key, so its content is opaque here. `App.tsx:29`, outside the core, writes it after each login.
- The sample ids and dates are computed once when `seed.ts` loads. They are the fields of `Seed.SampleIds`.
- Seed.SampleUserIdsUnique: the generated sample ids are assumed distinct from each other and from `admin-001` (`Seed.DistinctUserIds`). A random id is not guaranteed to be distinct.
- MockApi.CreateTransaction: the ledger invariant is stated for unique user ids only. `createUser` itself does not check for duplicate ids.
- Collections.UserIndex: the "not found" case is stated in one direction; the other direction follows from the "found" clause. The same holds for Collections.RewardIndex, Collections.RequestIndex, MockApi.CredentialIndex and FirebaseAuth.SignInIndex.
- Collections.UpdatedUsers: its own contract gives only the length and the not-found case. The effect on each position is stated by Collections.UpdatedUsersEffect.
- Collections.UpdatedRewards: its own contract gives only the length and the not-found case. The effect on each position is stated by Collections.UpdatedRewardsEffect.
- Ledger.Credit: its own contract gives only the length and the unknown-user case. The credit to the named user is stated by Ledger.CreditedUser, and the effect on every position, for unique ids, by Ledger.CreditEffect. Per-position facts in the function's own contract would be carried into every method that records a transaction.

## Findings

| source | as written | input that shows it | evidently intended | confidence | as-written member | corrected member |
|---|---|---|---|---|---|---|
| student-points-wallet/src/lib/mockApi.ts:226-229 | `login` builds a copy of the user without the password, but returns the stored record with the password | the sample student `alice@student.com` with password `student123`: the returned record carries `student123` | the comment says the password is not returned to the front end, so the copy without it should be returned | high, not executed | MockApi.LoginLeaksPassword | MockApi.LoginWithoutPassword |
