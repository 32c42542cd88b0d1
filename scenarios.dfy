/** Concrete calls of the ledger handlers on small stores of one to three
    members, whose results are proved: an income, an expense beyond the balance (which the code
    accepts), an income without permission, a transfer, and two refused
    transfers. */
module Scenarios {
  import opened Common
  import opened Schema
  import opened Ledger

  /** A member allowed to add income, with balance 0, records an income of 500. */
  method IncomeFromZero() returns (result: Outcome<TxRow>, balance: int, rowCount: nat)
    ensures result.Ok? && result.value.amount == 500
    ensures balance == 500 && rowCount == 1
  {
    var db := new Database([Member(1, 7, 1, true, 0)]);
    assert MemberByUser(db.members, 7) == Some(0);
    result := CreateTransaction(db, 7, TxRequest(500, Income, "salary", "Work", Some(1000)));
    balance := db.members[0].balance;
    rowCount := |db.transactions|;
  }

  /** An expense larger than the balance is accepted and drives it negative. */
  method ExpenseOverdraws() returns (result: Outcome<TxRow>, balance: int)
    ensures result.Ok? && balance == -100
  {
    var db := new Database([Member(1, 7, 1, false, 100)]);
    assert MemberByUser(db.members, 7) == Some(0);
    result := CreateTransaction(db, 7, TxRequest(200, Expense, "groceries", "Food", Some(1000)));
    balance := db.members[0].balance;
  }

  /** Without `canAddIncome` an income is refused and nothing is written;
      an expense by the same member goes through. */
  method IncomeNeedsPermission() returns (income: Outcome<TxRow>, expense: Outcome<TxRow>, balance: int)
    ensures income == Err(Forbidden)
    ensures expense.Ok? && balance == 60
  {
    var db := new Database([Member(1, 7, 1, false, 100)]);
    assert MemberByUser(db.members, 7) == Some(0);
    income := CreateTransaction(db, 7, TxRequest(40, Income, "bonus", "Work", Some(1000)));
    assert MemberByUser(db.members, 7) == Some(0);
    expense := CreateTransaction(db, 7, TxRequest(40, Expense, "fuel", "Car", Some(1000)));
    balance := db.members[0].balance;
  }

  /** Sender 300, recipient 50, transfer 100: balances 200 and 150, two new
      rows, and the sender's EXPENSE row stores -100. */
  method TransferBetweenMembers() returns (result: Outcome<()>, sender: int, recipient: int, expenseAmount: int, incomeAmount: int)
    ensures result.Ok?
    ensures sender == 200 && recipient == 150
    ensures expenseAmount == -100 && incomeAmount == 100
  {
    var db := new Database([Member(1, 7, 1, false, 300), Member(2, 8, 1, false, 50)]);
    assert MemberByUser(db.members, 7) == Some(0) && MemberById(db.members, 2) == Some(1);
    result := CreateTransfer(db, 7, 2, 100, "pocket money", 5000, 5000);
    sender, recipient := db.members[0].balance, db.members[1].balance;
    expenseAmount, incomeAmount := db.transactions[0].amount, db.transactions[1].amount;
  }

  /** A transfer above the sender's balance, or to another family, is refused
      and leaves both balances as they were. */
  method TransferRefusals() returns (tooMuch: Outcome<()>, otherFamily: Outcome<()>, sender: int, rowCount: nat)
    ensures tooMuch == Err(Forbidden) && otherFamily == Err(Forbidden)
    ensures sender == 300 && rowCount == 0
  {
    var db := new Database([Member(1, 7, 1, false, 300), Member(2, 8, 1, false, 50), Member(3, 9, 2, false, 0)]);
    assert MemberByUser(db.members, 7) == Some(0);
    assert MemberById(db.members, 2) == Some(1) && MemberById(db.members, 3) == Some(2);
    tooMuch := CreateTransfer(db, 7, 2, 301, "too much", 5000, 5000);
    assert MemberByUser(db.members, 7) == Some(0) && MemberById(db.members, 3) == Some(2);
    otherFamily := CreateTransfer(db, 7, 3, 10, "outside", 5000, 5000);
    sender := db.members[0].balance;
    rowCount := |db.transactions|;
  }
}
