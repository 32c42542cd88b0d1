/** The balance and ledger handlers of controllers/transaction.controller.js:
    the balance read, the two history queries, single-member income and
    expense entries, and the four-write transfer between two members. */
module Ledger {
  import opened Common
  import opened Schema

  const Income: string := "INCOME"
  const Expense: string := "EXPENSE"
  const TransferCategory: string := "Transfer"

  /** `page` and `limit` when the query string omits them. */
  const DefaultPage: int := 1
  const DefaultLimit: int := 10

  /** The balance effect of a row as `createTransaction` applies it: the
      amount for INCOME, the negated amount for any other type. */
  function Signed(t: TxRow): int {
    if t.transactionType == Income then t.amount else -t.amount
  }

  // ---------------------------------------------------------------------------
  // Balances

  /** The sum of all member balances. */
  function TotalBalance(ms: seq<Member>): int {
    if |ms| == 0 then 0 else ms[0].balance + TotalBalance(ms[1..])
  }

  lemma {:induction false} TotalBalanceUpdate(ms: seq<Member>, i: nat, m: Member)
    requires i < |ms|
    ensures TotalBalance(ms[i := m]) == TotalBalance(ms) - ms[i].balance + m.balance
  {
    if i == 0 {
      assert ms[i := m][1..] == ms[1..];
    } else {
      TotalBalanceUpdate(ms[1..], i - 1, m);
      assert ms[i := m][1..] == ms[1..][i - 1 := m];
    }
  }

  /** `ms2` is `ms` with member i's balance moved by `delta` and nothing else changed. */
  ghost predicate MovedBy(ms: seq<Member>, ms2: seq<Member>, i: nat, delta: int) {
    && |ms2| == |ms|
    && i < |ms|
    && ms2[i] == ms[i].(balance := ms[i].balance + delta)
    && forall k :: 0 <= k < |ms| && k != i ==> ms2[k] == ms[k]
  }

  /** `prisma.member.update` with `balance: { increment: delta }` on row i. */
  function Adjust(ms: seq<Member>, i: nat, delta: int): (r: seq<Member>)
    requires i < |ms|
    ensures MovedBy(ms, r, i, delta)
    ensures TotalBalance(r) == TotalBalance(ms) + delta
  {
    var m := ms[i].(balance := ms[i].balance + delta);
    TotalBalanceUpdate(ms, i, m);
    ms[i := m]
  }

  /** Moving balances never touches ids, user ids or flags, so the key
      constraints of the member table still hold. */
  lemma AdjustKeepsKeys(ms: seq<Member>, i: nat, delta: int)
    requires i < |ms| && MembersValid(ms)
    ensures MembersValid(Adjust(ms, i, delta))
  {
    var r := Adjust(ms, i, delta);
    forall a, b | 0 <= a < b < |r|
      ensures r[a].id != r[b].id && r[a].userId != r[b].userId
    {
      assert r[a].id == ms[a].id && r[a].userId == ms[a].userId;
      assert r[b].id == ms[b].id && r[b].userId == ms[b].userId;
    }
  }

  /** `getBalance`: the balance of the caller's member row, or NotFound. */
  function GetBalance(ms: seq<Member>, userId: int): (r: Outcome<int>)
    ensures r.Err? <==> forall j :: 0 <= j < |ms| ==> ms[j].userId != userId
    ensures r.Err? ==> r.error == NotFound
    ensures MembersValid(ms) ==> forall j :: 0 <= j < |ms| && ms[j].userId == userId ==> r == Ok(ms[j].balance)
  {
    match MemberByUser(ms, userId)
    case None => Err(NotFound)
    case Some(i) => Ok(ms[i].balance)
  }

  // ---------------------------------------------------------------------------
  // Ledger rows

  /** The signed total of the rows attributed to member `id`, in insertion order. */
  function LedgerSum(rows: seq<TxRow>, id: nat): int {
    if |rows| == 0 then 0
    else
      var last := rows[|rows| - 1];
      LedgerSum(rows[..|rows| - 1], id) + (if last.memberId == id then Signed(last) else 0)
  }

  lemma LedgerSumAppend(rows: seq<TxRow>, t: TxRow, id: nat)
    ensures LedgerSum(rows + [t], id) == LedgerSum(rows, id) + (if t.memberId == id then Signed(t) else 0)
  {
    assert (rows + [t])[..|rows|] == rows;
  }

  /** Every member's balance is the signed total of its ledger rows. */
  ghost predicate Consistent(ms: seq<Member>, rows: seq<TxRow>) {
    forall i :: 0 <= i < |ms| ==> ms[i].balance == LedgerSum(rows, ms[i].id)
  }

  /** Appending a row for member i and moving i's balance by the row's
      signed amount keeps every balance equal to its ledger total. */
  lemma {:induction false} EntryKeepsConsistent(ms: seq<Member>, rows: seq<TxRow>, i: nat, t: TxRow)
    requires MembersValid(ms) && Consistent(ms, rows)
    requires i < |ms| && t.memberId == ms[i].id
    ensures Consistent(Adjust(ms, i, Signed(t)), rows + [t])
  {
    var ms2 := Adjust(ms, i, Signed(t));
    forall k | 0 <= k < |ms2|
      ensures ms2[k].balance == LedgerSum(rows + [t], ms2[k].id)
    {
      LedgerSumAppend(rows, t, ms[k].id);
      if k != i {
        assert ms[k].id != ms[i].id by {
          if k < i { assert ms[k].id != ms[i].id; } else { assert ms[i].id != ms[k].id; }
        }
      }
    }
  }

  // ---------------------------------------------------------------------------
  // Queries: filter, order by transactionAt descending, page

  /** `where: { member: { userId } }`: the row's member belongs to this user. */
  predicate OwnedBy(ms: seq<Member>, userId: int, t: TxRow) {
    match MemberById(ms, t.memberId)
    case Some(k) => ms[k].userId == userId
    case None => false
  }

  /** `orderBy: { transactionAt: "desc" }`. */
  ghost predicate NewestFirst(s: seq<TxRow>) {
    forall i, j :: 0 <= i < j < |s| ==> s[i].transactionAt >= s[j].transactionAt
  }

  lemma NotNewerThanHead(t: TxRow, s: seq<TxRow>, r: seq<TxRow>, bound: int)
    requires multiset(r) == multiset(s) + multiset{t}
    requires t.transactionAt <= bound
    requires forall j :: 0 <= j < |s| ==> s[j].transactionAt <= bound
    ensures forall k :: 0 <= k < |r| ==> r[k].transactionAt <= bound
  {
    forall k | 0 <= k < |r|
      ensures r[k].transactionAt <= bound
    {
      assert r[k] in multiset(r);
      if r[k] != t {
        assert r[k] in multiset(s);
        var j :| 0 <= j < |s| && s[j] == r[k];
      }
    }
  }

  /** Places `t` before the first row that is not newer than it. */
  function InsertNewestFirst(t: TxRow, s: seq<TxRow>): (r: seq<TxRow>)
    requires NewestFirst(s)
    ensures NewestFirst(r)
    ensures multiset(r) == multiset(s) + multiset{t}
  {
    if |s| == 0 then [t]
    else if t.transactionAt >= s[0].transactionAt then [t] + s
    else
      assert s == [s[0]] + s[1..];
      var rest := InsertNewestFirst(t, s[1..]);
      NotNewerThanHead(t, s[1..], rest, s[0].transactionAt);
      [s[0]] + rest
  }

  /** An insertion sort, newest first. Prisma leaves the order of rows with
      equal timestamps open; the order this sort gives them is the model's own
      choice. `RecentTransactions` pages this order, so which of several rows
      with one timestamp falls on a page is fixed by the model, not by Prisma. */
  function SortNewestFirst(s: seq<TxRow>): (r: seq<TxRow>)
    ensures NewestFirst(r)
    ensures multiset(r) == multiset(s)
  {
    if |s| == 0 then []
    else
      assert s == [s[0]] + s[1..];
      InsertNewestFirst(s[0], SortNewestFirst(s[1..]))
  }

  /** A missing `transactionType` query parameter puts no condition on the type. */
  predicate TypeMatches(transactionType: Option<string>, t: TxRow) {
    transactionType.None? || t.transactionType == transactionType.value
  }

  /** The condition `getMonthlyTransactions` puts on a row; both bounds inclusive. */
  predicate MonthlySelected(ms: seq<Member>, userId: int, transactionType: Option<string>, from: int, to: int, t: TxRow) {
    OwnedBy(ms, userId, t) && TypeMatches(transactionType, t) && from <= t.transactionAt <= to
  }

  const DayMillis: int := 24 * 60 * 60 * 1000

  /** The bounds the handler builds from the clock: midnight of the 1st of the
      month and `new Date(year, month + 1, 0)`, midnight of its last day. */
  function MonthBounds(monthStart: int, daysInMonth: nat): (b: (int, int))
    requires daysInMonth >= 1
  {
    (monthStart, monthStart + (daysInMonth - 1) * DayMillis)
  }

  /** `getMonthlyTransactions`: exactly the selected rows, each as often as it
      occurs in the table, newest first. */
  function MonthlyTransactions(ms: seq<Member>, rows: seq<TxRow>, userId: int, transactionType: Option<string>, from: int, to: int): (r: seq<TxRow>)
    ensures NewestFirst(r)
    ensures forall t :: multiset(r)[t] == if MonthlySelected(ms, userId, transactionType, from, to, t) then multiset(rows)[t] else 0
  {
    SortNewestFirst(Filter(rows, (t: TxRow) => MonthlySelected(ms, userId, transactionType, from, to, t)))
  }

  /** `getMonthlyTransactions` as the handler calls it: the window is
      `MonthBounds` of the current month. */
  function MonthlyWindow(ms: seq<Member>, rows: seq<TxRow>, userId: int, transactionType: Option<string>, monthStart: int, daysInMonth: nat): (r: seq<TxRow>)
    requires daysInMonth >= 1
    ensures NewestFirst(r)
    ensures forall t ::
              multiset(r)[t] == if OwnedBy(ms, userId, t) && TypeMatches(transactionType, t)
                                   && monthStart <= t.transactionAt <= monthStart + (daysInMonth - 1) * DayMillis
                                then multiset(rows)[t] else 0
  {
    var b := MonthBounds(monthStart, daysInMonth);
    MonthlyTransactions(ms, rows, userId, transactionType, b.0, b.1)
  }

  /** Day by day, for a caller's row of the requested type stamped `offset`
      milliseconds into day `day` of the month (day 0 is the 1st): it is
      returned exactly when the day is one of the first `daysInMonth - 1`, or
      the row is stamped at midnight of the last day. Rows stamped later on
      the last day are left out, because the upper bound is that midnight. */
  lemma {:induction false} MonthlyWindowByDay(ms: seq<Member>, rows: seq<TxRow>, userId: int, transactionType: Option<string>,
                                             monthStart: int, daysInMonth: nat, t: TxRow, day: int, offset: int)
    requires daysInMonth >= 1 && 0 <= offset < DayMillis
    requires OwnedBy(ms, userId, t) && TypeMatches(transactionType, t)
    requires t.transactionAt == monthStart + day * DayMillis + offset
    ensures var r := MonthlyWindow(ms, rows, userId, transactionType, monthStart, daysInMonth);
      multiset(r)[t] == if 0 <= day && (day < daysInMonth - 1 || (day == daysInMonth - 1 && offset == 0))
                        then multiset(rows)[t] else 0
  {
    var inWindow := monthStart <= t.transactionAt <= monthStart + (daysInMonth - 1) * DayMillis;
    if day < 0 {
      assert day * DayMillis <= -DayMillis;
      assert !inWindow;
    } else if day < daysInMonth - 1 {
      assert day * DayMillis + DayMillis <= (daysInMonth - 1) * DayMillis;
      assert inWindow;
    } else if day == daysInMonth - 1 {
      assert inWindow <==> offset == 0;
    } else {
      assert day * DayMillis >= daysInMonth * DayMillis;
      assert !inWindow;
    }
  }

  /** All of the caller's rows, newest first. */
  function History(ms: seq<Member>, rows: seq<TxRow>, userId: int): (r: seq<TxRow>)
    ensures NewestFirst(r)
    ensures forall t :: multiset(r)[t] == if OwnedBy(ms, userId, t) then multiset(rows)[t] else 0
  {
    SortNewestFirst(Filter(rows, (t: TxRow) => OwnedBy(ms, userId, t)))
  }

  /** Prisma's `skip` and `take` on an ordered result: the rows from position
      `skip` on, at most `take` of them. */
  function Page(h: seq<TxRow>, skip: nat, take: nat): (r: seq<TxRow>)
    ensures |r| == (if skip >= |h| then 0 else if skip + take <= |h| then take else |h| - skip)
    ensures forall k :: 0 <= k < |r| ==> r[k] == h[skip + k]
  {
    if skip >= |h| then [] else if skip + take <= |h| then h[skip..skip + take] else h[skip..]
  }

  /** A page of a newest-first list of the caller's rows is again newest
      first and holds only the caller's rows. */
  lemma PageOfHistory(ms: seq<Member>, rows: seq<TxRow>, userId: int, skip: nat, take: nat)
    ensures var r := Page(History(ms, rows, userId), skip, take);
      NewestFirst(r) && forall t :: t in r ==> OwnedBy(ms, userId, t)
  {
    var h := History(ms, rows, userId);
    var r := Page(h, skip, take);
    forall i, j | 0 <= i < j < |r|
      ensures r[i].transactionAt >= r[j].transactionAt
    {
      assert r[i] == h[skip + i] && r[j] == h[skip + j];
    }
    forall t | t in r
      ensures OwnedBy(ms, userId, t)
    {
      var k :| 0 <= k < |r| && r[k] == t;
      assert h[skip + k] == t;
      assert t in multiset(h);
    }
  }

  /** `getRecentTransactions`: skip `(page - 1) * limit` rows of the caller's
      history and take at most `limit`; a negative skip or limit is refused. */
  function RecentTransactions(ms: seq<Member>, rows: seq<TxRow>, userId: int, page: Option<int>, limit: Option<int>): (r: Outcome<seq<TxRow>>)
    ensures var l := if limit.Some? then limit.value else DefaultLimit;
      var skip := ((if page.Some? then page.value else DefaultPage) - 1) * l;
      && (r.Err? <==> skip < 0 || l < 0)
      && (r.Ok? ==> r.value == Page(History(ms, rows, userId), skip, l))
      && (r.Ok? ==> |r.value| <= l && NewestFirst(r.value))
      && (r.Ok? ==> forall t :: t in r.value ==> OwnedBy(ms, userId, t))
  {
    var l := if limit.Some? then limit.value else DefaultLimit;
    var skip := ((if page.Some? then page.value else DefaultPage) - 1) * l;
    if skip < 0 || l < 0 then Err(ServerError)
    else
      PageOfHistory(ms, rows, userId, skip, l);
      Ok(Page(History(ms, rows, userId), skip, l))
  }

  // ---------------------------------------------------------------------------
  // createTransaction

  /** The body of a POST /transactions request; `transactionAt` is None when
      the field is missing or empty (parsing the date is not modelled). */
  datatype TxRequest = TxRequest(
    amount: int,
    transactionType: string,
    description: string,
    category: string,
    transactionAt: Option<int>)

  /** Some required field is falsy: a zero amount, an empty string or no date. */
  predicate MissingField(req: TxRequest) {
    req.amount == 0 || req.transactionType == "" || req.description == "" || req.category == "" || req.transactionAt.None?
  }

  /** An INCOME request by a member whose `canAddIncome` is off. */
  predicate IncomeDenied(ms: seq<Member>, userId: int, req: TxRequest) {
    match MemberByUser(ms, userId)
    case Some(i) => req.transactionType == Income && !ms[i].canAddIncome
    case None => false
  }

  /** The row `createTransaction` inserts for member m. */
  function EntryRow(m: Member, req: TxRequest): (t: TxRow)
    requires req.transactionAt.Some?
    ensures t.memberId == m.id && t.familyId == m.familyId && t.amount == req.amount
    ensures Signed(t) == if req.transactionType == Income then req.amount else -req.amount
  {
    TxRow(m.familyId, m.id, req.amount, req.transactionType, req.description, req.category, req.transactionAt.value)
  }

  method CreateTransaction(db: Database, userId: int, req: TxRequest) returns (r: Outcome<TxRow>)
    requires db.Valid()
    modifies db
    ensures db.Valid()
    ensures db.users == old(db.users) && db.families == old(db.families) && db.outbox == old(db.outbox)
    ensures r == Err(BadRequest) <==> MissingField(req)
    ensures r == Err(NotFound) <==> !MissingField(req) && MemberByUser(old(db.members), userId).None?
    ensures r == Err(Forbidden) <==> !MissingField(req) && IncomeDenied(old(db.members), userId, req)
    ensures r.Ok? || r == Err(BadRequest) || r == Err(NotFound) || r == Err(Forbidden)
    ensures r.Err? ==> db.members == old(db.members) && db.transactions == old(db.transactions)
    ensures r.Ok? ==> MemberByUser(old(db.members), userId).Some?
    ensures r.Ok? ==>
      var i := MemberByUser(old(db.members), userId).value;
      && r.value == EntryRow(old(db.members)[i], req)
      && db.transactions == old(db.transactions) + [r.value]
      && db.members == Adjust(old(db.members), i, Signed(r.value))
    ensures TotalBalance(db.members) == old(TotalBalance(db.members)) + (if r.Ok? then Signed(r.value) else 0)
    ensures old(Consistent(db.members, db.transactions)) ==> Consistent(db.members, db.transactions)
  {
    if MissingField(req) {
      return Err(BadRequest);
    }
    var found := MemberByUser(db.members, userId);
    if found.None? {
      return Err(NotFound);
    }
    var i := found.value;
    var member := db.members[i];
    if req.transactionType == Income && !member.canAddIncome {
      return Err(Forbidden);
    }
    var row := EntryRow(member, req);
    ghost var before := db.members;
    ghost var rowsBefore := db.transactions;
    db.transactions := db.transactions + [row];
    db.members := Adjust(db.members, i, Signed(row));
    AdjustKeepsKeys(before, i, Signed(row));
    if Consistent(before, rowsBefore) {
      EntryKeepsConsistent(before, rowsBefore, i, row);
    }
    r := Ok(row);
  }

  // ---------------------------------------------------------------------------
  // createTransfer

  /** The annotated description of a transfer row: "<prefix><userId>: <description>". */
  function TransferNote(prefix: string, userId: nat, description: string): string {
    prefix + DecimalString(userId) + ": " + description
  }

  /** The two rows a transfer appends: an EXPENSE on the sender that stores the
      NEGATED amount, then an INCOME on the recipient that stores the amount. */
  function TransferRows(sender: Member, recipient: Member, amount: int, description: string, sentAt: int, receivedAt: int): (rows: seq<TxRow>)
    ensures |rows| == 2
    ensures rows[0].memberId == sender.id && rows[0].familyId == sender.familyId
    ensures rows[0].transactionType == Expense && rows[0].amount == -amount && rows[0].category == TransferCategory
    ensures rows[1].memberId == recipient.id && rows[1].familyId == recipient.familyId
    ensures rows[1].transactionType == Income && rows[1].amount == amount && rows[1].category == TransferCategory
  {
    [ TxRow(sender.familyId, sender.id, -amount, Expense, TransferNote("Transfer ke ", recipient.userId, description), TransferCategory, sentAt),
      TxRow(recipient.familyId, recipient.id, amount, Income, TransferNote("Transfer dari ", sender.userId, description), TransferCategory, receivedAt) ]
  }

  /** A transfer's EXPENSE row and an ordinary EXPENSE entry of the same
      amount have opposite balance effects: read as a ledger entry the
      transfer row credits the sender. */
  lemma TransferExpenseCredits(sender: Member, recipient: Member, amount: int, description: string, sentAt: int, receivedAt: int)
    ensures var rows := TransferRows(sender, recipient, amount, description, sentAt, receivedAt);
      var entry := EntryRow(sender, TxRequest(amount, Expense, description, TransferCategory, Some(sentAt)));
      && rows[0].transactionType == entry.transactionType
      && Signed(rows[0]) == amount && Signed(entry) == -amount
      && Signed(rows[1]) == amount
  {
  }

  /** The caller's member and the recipient member, when both exist. */
  function Parties(ms: seq<Member>, userId: int, recipientId: int): (p: Option<(nat, nat)>)
    ensures p.Some? ==> p.value.0 < |ms| && p.value.1 < |ms|
    ensures p.Some? ==> ms[p.value.0].userId == userId && ms[p.value.1].id == recipientId
    ensures p.None? <==> MemberByUser(ms, userId).None? || MemberById(ms, recipientId).None?
  {
    match (MemberByUser(ms, userId), MemberById(ms, recipientId))
    case (Some(s), Some(t)) => Some((s, t))
    case _ => None
  }

  /** The checks after the lookups: the two members share a family and the
      sender holds at least the amount. */
  predicate TransferAllowed(ms: seq<Member>, parties: (nat, nat), amount: int)
    requires parties.0 < |ms| && parties.1 < |ms|
  {
    ms[parties.0].familyId == ms[parties.1].familyId && ms[parties.0].balance >= amount
  }

  /** The balances after a transfer: the sender debited, then the recipient
      credited (the same member when a user transfers to themself). */
  function Transferred(ms: seq<Member>, s: nat, t: nat, amount: int): (r: seq<Member>)
    requires s < |ms| && t < |ms|
    ensures |r| == |ms|
    ensures forall k :: 0 <= k < |ms| ==>
      r[k] == ms[k].(balance := ms[k].balance - (if k == s then amount else 0) + (if k == t then amount else 0))
    ensures TotalBalance(r) == TotalBalance(ms)
  {
    Adjust(Adjust(ms, s, -amount), t, amount)
  }

  /** After a successful transfer from a consistent ledger, the sender's ledger
      total exceeds its balance by twice the amount: the negated EXPENSE row
      breaks the balance/ledger agreement that `createTransaction` keeps. */
  lemma {:induction false} TransferLedgerDrift(ms: seq<Member>, rows: seq<TxRow>, s: nat, t: nat, amount: int, description: string, sentAt: int, receivedAt: int)
    requires MembersValid(ms) && Consistent(ms, rows)
    requires s < |ms| && t < |ms|
    ensures var ms2 := Transferred(ms, s, t, amount);
      var rows2 := rows + TransferRows(ms[s], ms[t], amount, description, sentAt, receivedAt);
      LedgerSum(rows2, ms[s].id) == ms2[s].balance + 2 * amount
  {
    var added := TransferRows(ms[s], ms[t], amount, description, sentAt, receivedAt);
    assert rows + added == (rows + [added[0]]) + [added[1]];
    LedgerSumAppend(rows, added[0], ms[s].id);
    LedgerSumAppend(rows + [added[0]], added[1], ms[s].id);
    if s != t {
      assert ms[s].id != ms[t].id by {
        if s < t { assert ms[s].id != ms[t].id; } else { assert ms[t].id != ms[s].id; }
      }
    }
  }

  method CreateTransfer(db: Database, userId: int, recipientId: int, amount: int, description: string, sentAt: int, receivedAt: int)
    returns (r: Outcome<()>)
    requires db.Valid()
    modifies db
    ensures db.Valid()
    ensures db.users == old(db.users) && db.families == old(db.families) && db.outbox == old(db.outbox)
    ensures r == Err(BadRequest) <==> recipientId == 0 || amount == 0 || description == ""
    ensures r == Err(NotFound) <==> !(recipientId == 0 || amount == 0 || description == "") && Parties(old(db.members), userId, recipientId).None?
    ensures r == Err(Forbidden) <==>
      && !(recipientId == 0 || amount == 0 || description == "")
      && Parties(old(db.members), userId, recipientId).Some?
      && !TransferAllowed(old(db.members), Parties(old(db.members), userId, recipientId).value, amount)
    ensures r.Ok? || r == Err(BadRequest) || r == Err(NotFound) || r == Err(Forbidden)
    ensures r.Err? ==> db.members == old(db.members) && db.transactions == old(db.transactions)
    ensures r.Ok? ==> Parties(old(db.members), userId, recipientId).Some?
    ensures r.Ok? ==>
      var (s, t) := Parties(old(db.members), userId, recipientId).value;
      && db.members == Transferred(old(db.members), s, t, amount)
      && db.transactions == old(db.transactions) + TransferRows(old(db.members)[s], old(db.members)[t], amount, description, sentAt, receivedAt)
      && (amount >= 0 ==> db.members[s].balance >= 0)
    ensures TotalBalance(db.members) == old(TotalBalance(db.members))
    ensures r.Ok? && old(Consistent(db.members, db.transactions)) ==>
      var s := Parties(old(db.members), userId, recipientId).value.0;
      LedgerSum(db.transactions, db.members[s].id) == db.members[s].balance + 2 * amount
  {
    if recipientId == 0 || amount == 0 || description == "" {
      return Err(BadRequest);
    }
    var parties := Parties(db.members, userId, recipientId);
    if parties.None? {
      return Err(NotFound);
    }
    var (s, t) := parties.value;
    var sender, recipient := db.members[s], db.members[t];
    if sender.familyId != recipient.familyId {
      return Err(Forbidden);
    }
    if sender.balance < amount {
      return Err(Forbidden);
    }
    ghost var before := db.members;
    ghost var rowsBefore := db.transactions;
    AdjustKeepsKeys(before, s, -amount);
    AdjustKeepsKeys(Adjust(before, s, -amount), t, amount);
    db.members := Transferred(db.members, s, t, amount);
    db.transactions := db.transactions + TransferRows(sender, recipient, amount, description, sentAt, receivedAt);
    if Consistent(before, rowsBefore) {
      TransferLedgerDrift(before, rowsBefore, s, t, amount, description, sentAt, receivedAt);
    }
    r := Ok(());
  }
}
