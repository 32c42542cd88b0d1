# Family finance tracker: ledger, family membership and accounts

A Dafny model of the three controllers of a family-finance backend, in
which users register and verify an account, create or join a family, and
keep a per-member balance through income and expense entries and
transfers between members of the same family.

The Prisma database is one object, `Schema.Database`. Its tables are
sequences of rows: `users`, `families`, `members` and `transactions`.
It also holds an `outbox` of verification emails the handlers send. The
handlers that write are methods that `modify` that object. Their
postconditions give:

- the exact error kind of every guard, in the source's order;
- the complete new state on success;
- "nothing changed" on every failure;
- the tables the handler never touches.

The handlers that only read are functions over the table sequences.
The ledger and family handlers get the caller's user id as a parameter,
because they take it from `req.userId`. The auth handlers take no user
id: they find their user by the email, username or identifier in the
request body.

Modules, one per controller:

- `Common`: options and outcomes, `FindFirst` (a `findUnique` over a
  unique column), `Filter` (a `findMany` condition), and decimal
  rendering.
- `Schema`: the rows, the `Database` class, and the key constraints of
  its tables (`Valid`). Every writing handler requires and preserves
  `Valid`.
- `Ledger` (controllers/transaction.controller.js): the balance read, the
  monthly and paged history, `createTransaction` and `createTransfer`.
  It also holds the balance total and the ledger-consistency predicate.
- `Families` (controllers/family.controller.js): `createFamily` and
  `joinFamily`.
- `Accounts` (controllers/auth.controller.js): register, verify, resend,
  login, change password, and the verification code.
- `Scenarios`: concrete calls of the ledger handlers on small stores,
  whose results are proved.

What the model shows about the ledger:

- A transaction entry moves exactly one balance, by +amount for
  "INCOME" and by −amount for any other type.
- An entry keeps every balance equal to the signed total of its member's
  rows (`EntryKeepsConsistent`).
- A transfer conserves the sum of all balances (`Transferred`).
- A transfer does NOT keep that agreement: its EXPENSE row stores
  `-amount`, while an ordinary expense stores the positive amount. So,
  read as a ledger entry, the transfer row credits the sender.
  `TransferLedgerDrift` proves that after a transfer the sender's ledger
  total is its balance plus twice the amount. `CreateTransfer` states
  the same for the store.

Behaviour of the code that a reader might not expect, all of which the
model keeps:

- The code refuses no expense for lack of funds. A balance can go
  negative (`Scenarios.ExpenseOverdraws`).
- An insufficient balance for a transfer is reported as Forbidden.
- Creating or joining a family only sets `familyId` (and, on creation,
  `role`) on the caller's user row. No member row is created and no
  permission flag is set.
- Joining has no "already a member" check, so joining twice is the same
  as joining once.
- Transfer amounts are not required to be positive.
- The two transfer rows each take their own clock reading.
- The three controllers have no edit, delete or permission-grant handler.

Error kinds: utils/errors.js exports no `ForbiddenError`, and
controllers/family.controller.js imports no error class at all. At run
time those `throw` statements raise a TypeError or a ReferenceError
instead of the named error. The model records the kind the code names.
Every such path fails before any write, as it does at run time. A
failed database write (a unique violation, or an update of a missing
row) is `ServerError`.

app.js mounts only the auth router. The family and transaction handlers
are modelled as their controllers define them.

## Model

| member | source | states |
|---|---|---|
| `Common.FindFirst` | controllers/transaction.controller.js:11-14 | a unique-key lookup finds the first row with the key, and finds nothing exactly when no row has it |
| `Common.Filter` | controllers/transaction.controller.js:42-52 | a `findMany` condition keeps each row that satisfies it, as many times as the table holds it, and no other row |
| `Common.DecimalRoundTrip` | controllers/auth.controller.js:211 | reading back the decimal text of a number gives the number |
| `Common.DecimalLength` | controllers/auth.controller.js:206-211 | a number in [10^(k-1), 10^k) has exactly k decimal digits |
| `Schema.UserByIdentifier` | controllers/auth.controller.js:165-173 | login's lookup tries the email first and falls back to the username only when no email matches; it finds nothing exactly when neither matches |
| `Ledger.GetBalance` | controllers/transaction.controller.js:8-23 | NotFound exactly when the user has no member row; otherwise the balance of that (unique) member |
| `Ledger.Adjust` | controllers/transaction.controller.js:119-122 | an increment changes one member's balance by delta, leaves every other member and field unchanged, and moves the total by delta |
| `Ledger.TotalBalanceUpdate` | controllers/transaction.controller.js:156-164 | replacing one member changes the sum of balances by the difference of the two balances |
| `Ledger.EntryRow` | controllers/transaction.controller.js:105-117 | the inserted row carries the member's id and family and the requested amount; its balance effect is +amount for INCOME and −amount otherwise |
| `Ledger.EntryKeepsConsistent` | controllers/transaction.controller.js:105-122 | appending an entry and applying its adjustment keeps every balance equal to its member's signed ledger total |
| `Ledger.CreateTransaction` | controllers/transaction.controller.js:80-129 | BadRequest iff a field is falsy (amount 0 included); NotFound iff there is no member; Forbidden iff INCOME without canAddIncome (EXPENSE not gated); a failure writes nothing; success appends exactly one row and moves only that member's balance; consistency is preserved |
| `Ledger.TransferRows` | controllers/transaction.controller.js:165-186 | a transfer appends an EXPENSE row on the sender storing −amount and an INCOME row on the recipient storing +amount, both in category "Transfer" |
| `Ledger.TransferExpenseCredits` | controllers/transaction.controller.js:165-175 | the transfer's EXPENSE row has balance effect +amount, while an ordinary EXPENSE entry of the same amount has −amount |
| `Ledger.Parties` | controllers/transaction.controller.js:140-146 | the lookup fails exactly when the caller's member or the recipient member is missing |
| `Ledger.Transferred` | controllers/transaction.controller.js:156-164 | the sender is debited and the recipient credited by amount (net zero for a self-transfer), nothing else changes, and the sum of balances is conserved |
| `Ledger.TransferLedgerDrift` | controllers/transaction.controller.js:156-187 | after a transfer from a consistent ledger, the sender's signed ledger total equals its balance plus twice the amount |
| `Ledger.CreateTransfer` | controllers/transaction.controller.js:131-194 | BadRequest iff recipientId, amount or description is falsy; NotFound iff either member is missing; Forbidden iff the families differ or the balance is below amount; a failure changes no balance and no row; success writes the four updates, conserves the total, and leaves the sender non-negative when amount ≥ 0 |
| `Ledger.MonthlyWindow` | controllers/transaction.controller.js:30-52 | the handler's answer for the current month: the caller's rows of the type stamped from midnight of the 1st to midnight of the last day, both inclusive, with their multiplicities, newest first |
| `Ledger.MonthlyWindowByDay` | controllers/transaction.controller.js:36-48 | a caller's row of the type is returned exactly when it falls on one of the first days−1 days of the month or exactly at midnight of the last day; a row stamped later on the last day, or outside the month, is not |
| `Ledger.MonthlyTransactions` | controllers/transaction.controller.js:42-52 | exactly the caller's rows of the requested type (any type when omitted) with timestamp in [from, to], with their multiplicities, newest first |
| `Ledger.InsertNewestFirst` | controllers/transaction.controller.js:51 | inserting into a newest-first list keeps it newest first and adds exactly that row |
| `Ledger.SortNewestFirst` | controllers/transaction.controller.js:68 | the ordering is newest first and is a permutation of its input |
| `Ledger.History` | controllers/transaction.controller.js:66-68 | exactly the caller's rows, with their multiplicities, newest first |
| `Ledger.Page` | controllers/transaction.controller.js:69-70 | skip/take returns the rows from position skip on, min(take, remaining) of them |
| `Ledger.PageOfHistory` | controllers/transaction.controller.js:66-71 | a page of the history is newest first and holds only the caller's rows |
| `Ledger.RecentTransactions` | controllers/transaction.controller.js:61-78 | page defaults to 1 and limit to 10; skips (page−1)·limit rows and returns at most limit rows, newest first, all the caller's |
| `Families.RoleOrDefault` | controllers/family.controller.js:30 | the stored role is the requested one, or "AYAH" when it is empty; never empty |
| `Families.Attach` | controllers/family.controller.js:58-63 | joining sets only the caller's familyId; every other field and user is unchanged |
| `Families.AttachIdempotent` | controllers/family.controller.js:58-63 | joining the same family twice gives the same users as joining once |
| `Families.AttachOverwrites` | controllers/family.controller.js:58-63 | a second join replaces the first family link |
| `Families.NewFamilyKeepsKeys` | controllers/family.controller.js:12-24 | adding a family under an unused name and code keeps names and codes unique |
| `Families.CreateFamily` | controllers/family.controller.js:3-39 | BadRequest iff the name is empty or taken, writing nothing; otherwise exactly one family is appended; ServerError iff the caller's user row is missing (the family stays); on success only the caller gets the new familyId and the role or "AYAH" |
| `Families.JoinFamily` | controllers/family.controller.js:41-70 | BadRequest iff no code; NotFound iff no family has the code; failures write nothing; success overwrites only the caller's familyId, keeping the role |
| `Families.JoinTwice` | controllers/family.controller.js:58-63 | a second join answers the same and leaves the state of the first |
| `Accounts.VerificationCode` | controllers/auth.controller.js:206-212 | the code is six decimal digits, no leading zero, with value 100000 + draw, in [100000, 999999] |
| `Accounts.VerificationCodeInjective` | controllers/auth.controller.js:206-212 | different draws give different codes |
| `Accounts.NewUser` | controllers/auth.controller.js:59-69 | a registered user gets the next id (ids assumed autoincrement), is unverified, stores the hash of the password and the code, and has no family |
| `Accounts.NewUserKeepsKeys` | controllers/auth.controller.js:53-69 | a new user with an unused email and username keeps both unique |
| `Accounts.RegisterUser` | controllers/auth.controller.js:14-80 | BadRequest iff a field is falsy, the email is invalid, the passwords differ, or the email/username is taken by someone other than an unverified owner of the email; an unverified email is re-registered in place (username, hash, code) without a new user; otherwise one unverified user is appended; each success sends one email with the code |
| `Accounts.VerifyUser` | controllers/auth.controller.js:82-115 | BadRequest iff a field is missing; NotFound iff the email is unknown; Unauthorized iff the stored code differs; success sets isVerified and clears the code |
| `Accounts.VerifyTwice` | controllers/auth.controller.js:98-108 | after a successful verification the same code is refused |
| `Accounts.ResendVerificationCode` | controllers/auth.controller.js:117-155 | BadRequest iff no email or the user is already verified; NotFound iff unknown; success replaces only the code and sends it |
| `Accounts.LoginErrorKind` | controllers/auth.controller.js:161-187 | missing credentials are BadRequest; the other refusals are Unauthorized |
| `Accounts.Login` | controllers/auth.controller.js:157-204 | unknown identifier or wrong password is InvalidCredentials; NotVerified only after the password matched; success iff found, password matches and verified |
| `Accounts.ChangePassword` | controllers/auth.controller.js:257-308 | NotFound, then Unauthorized for a wrong old password, then BadRequest for a mismatched confirmation; success replaces only the password hash |
| `Accounts.SameKeysSameLookup` | controllers/auth.controller.js:268-276 | changing fields other than email and username does not change which user an identifier finds |
| `Schema.HashMatchesPrefix` | controllers/auth.controller.js:179-182 | two passwords pass the same `bcrypt.compare` exactly when their first 72 characters agree |
| `Schema.SeventyThirdCharacterIgnored` | controllers/auth.controller.js:179-182 | two passwords that differ only in the 73rd character have the same digest |
| `Accounts.ChangedPasswordGovernsLogin` | controllers/auth.controller.js:282-301 | after a change, the new password passes login's password check; an old password that differs from it within the first 72 characters fails it, and one that agrees with it there behaves exactly like it |
| `Scenarios.IncomeFromZero` | controllers/transaction.controller.js:99-122 | balance 0 plus an income of 500 gives balance 500 and one row |
| `Scenarios.ExpenseOverdraws` | controllers/transaction.controller.js:105-122 | balance 100 minus an expense of 200 is accepted and gives −100 |
| `Scenarios.IncomeNeedsPermission` | controllers/transaction.controller.js:99-103 | without canAddIncome an income is Forbidden; an expense is accepted |
| `Scenarios.TransferBetweenMembers` | controllers/transaction.controller.js:152-187 | 300 and 50 with a transfer of 100 give 200 and 150; the rows store −100 and 100 |
| `Scenarios.TransferRefusals` | controllers/transaction.controller.js:147-154 | an over-balance or cross-family transfer is Forbidden and writes nothing |

## Left out

- Prisma itself: queries are functions over in-memory sequences. There
  are no concurrent requests and no isolation levels. Writes that the
  source issues separately are modelled as sequential steps that cannot
  fail halfway: the row insert and balance increment of
  `createTransaction`, and the check-then-write of `createTransfer`.
  Only `createFamily` keeps a visible half-write (a missing user row
  after the family insert).
- bcrypt: `Hash` is a function of the first 72 characters of the
  password, which is the part bcrypt reads. Salt and cost are not
  modelled, and `compare` is equality with `Hash(password)`. Characters
  stand for bytes, so a password with characters outside ASCII, whose
  UTF-8 encoding is longer, is cut at the wrong place.
- `sendVerificationEmail` (SMTP): a sent email is a `Mail` appended to
  the outbox. Delivery failures are not modelled; the source does not
  await the email.
- `generateToken` and the JWT middleware: login answers the user id,
  username and email the token is issued for.
- `validateEmail` (utils/validators is not part of this model). The code
  ignores its return value, so it can only refuse an email by throwing.
  The parameter `emailValid` means "validateEmail did not throw". The
  BadRequest answered when it throws is an assumption: the error class
  it throws is not part of this model.
- `Math.random`: the integer draw `floor(random · 900000)` is a
  parameter.
- `Date`: timestamps are integers, and the month bounds take the month's
  first midnight and its number of days. Time zones and daylight saving
  are not modelled. Parsing `transactionAt` into a date is not modelled:
  a missing or empty date is `None`.
- JSON typing: amounts and ids in request bodies are integers, so
  string, fractional or NaN values are not modelled. Request fields are
  falsy exactly when they are 0, the empty string or absent.
- Query strings: `page` and `limit` arrive as strings. The model's
  integer stands for a decimal-integer string, which `(page - 1) * limit`
  and `parseInt(limit)` both read as that integer. Other strings are not
  represented. For `?limit=`, `parseInt("")` is NaN and Prisma refuses
  the query, while the nearest model input, a limit of 0, answers an
  empty page. For `"1e1"`, `*` reads 10 but `parseInt` reads 1. The verification
  code in a request is a string. A code sent as a JSON number never
  equals the stored string under the strict `!==`, so `verifyUser`
  always answers Unauthorized for it. The model does not represent that
  request.
- The Prisma schema, which is not part of this model. The transaction
  type column is taken to be a free string. If it is an enum of "INCOME"
  and "EXPENSE", then a create with any other type fails at the insert
  and writes nothing, and a monthly query filtering on another type
  fails. The model instead stores the row, debits the balance, and
  answers an empty list. Amounts and balances are unbounded integers,
  so column width and range errors are not modelled, such as an `Int`
  balance incremented past 2^31−1. User and family ids are assumed to be
  autoincrement integers starting at 1, with no deletions, so a new row
  gets the table's size plus one. No handler's branching depends on
  this; only id values differ, and with them the `Transfer ke <userId>`
  text.
- The family code of a new family is generated by the database. It is a
  parameter that must not be in use.
- `Ledger.RecentTransactions`: a negative `limit`, which Prisma treats as
  paging backwards, and a negative skip are both answered as a refused
  query (`ServerError`). Backwards paging is not modelled.
- Member fields that no handler reads (role, isFamilyHead,
  canViewFamilyReport), and the creation of member rows: no handler in
  the three controllers creates them. The store starts with a given member table.
- `getFamilyMembers`, `updateMemberPermissions` and `getFamilyCode` are
  routed but not defined in the family controller. Transaction edit and
  delete do not exist in the transaction controller.
- Logging (`console.error`), HTTP response shapes and messages, app.js,
  the routes and the not-found middleware.
