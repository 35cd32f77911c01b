/** The bank-account service as the source runs it: each operation fetches
    an account from the store, changes the fetched copy field by field, and
    writes it back once the peers it depends on have answered. Every method is
    proved to perform the transition its Orchestrator function describes. */
module Service {
  import opened Reactive
  import opened Accounts
  import opened Orchestrator

  class BankAccountService {
    /** The account store: account id to account document. */
    var accounts: map<string, Account>

    ghost predicate Valid()
      reads this
    {
      KeyedById(accounts)
    }

    constructor (initial: map<string, Account>)
      requires KeyedById(initial)
      ensures Valid() && accounts == initial
    {
      accounts := initial;
    }

    /** findById: the stored account, or an empty result when the id is unknown. */
    method FindById(id: string) returns (r: Mono<Account>)
      ensures r.Just? <==> id in accounts
      ensures r.Just? ==> r.value == accounts[id]
      ensures !r.Error?
    {
      if id in accounts {
        r := Just(accounts[id]);
      } else {
        r := Empty;
      }
    }

    /** update / register: the repository's save. */
    method Update(a: Account) returns (r: Mono<Account>)
      requires Valid()
      modifies this
      ensures Valid()
      ensures accounts == Save(old(accounts), a) && r == Just(a)
    {
      accounts := accounts[a.id := a];
      r := Just(a);
    }

    method Deposit(op: Operation, today: string, ledger: Ack) returns (r: Mono<Account>, sent: seq<Transaction>)
      requires Valid()
      modifies this
      ensures Valid()
      ensures Step(r, accounts, sent) == DepositStep(old(accounts), op, today, ledger)
    {
      var found := FindById(op.accountId);
      if !found.Just? {
        r, sent := Propagate(found), [];
        return;
      }
      var x := found.value;
      var newAmount := x.amount + op.amount;
      var t := Transaction(today, op.amount, DepositKind, x.customerId, op.accountId, newAmount, x.debitCardId);
      x := x.(amount := newAmount);
      x := x.(numberOfTransactions := x.numberOfTransactions + 1);
      sent := [t];
      if ledger.Just? {
        r := Update(x);
      } else {
        r := Propagate(ledger);
      }
    }

    method Withdraw(op: Operation, today: string, ledger: Ack) returns (r: Mono<Account>, sent: seq<Transaction>)
      requires Valid()
      modifies this
      ensures Valid()
      ensures Step(r, accounts, sent) == WithdrawStep(old(accounts), op, today, ledger)
    {
      var found := FindById(op.accountId);
      if !found.Just? {
        r, sent := Propagate(found), [];
        return;
      }
      var x := found.value;
      var newAmount := x.amount - op.amount;
      if newAmount >= 0 {
        var t := Transaction(today, op.amount, WithdrawalKind, x.customerId, op.accountId, newAmount, x.debitCardId);
        x := x.(amount := newAmount);
        x := x.(numberOfTransactions := x.numberOfTransactions + 1);
        sent := [t];
        if ledger.Just? {
          r := Update(x);
        } else {
          r := Propagate(ledger);
        }
      } else {
        r, sent := Empty, [];
      }
    }

    method Commission(transaction: Transaction, ledger: Ack) returns (r: Mono<Account>, sent: seq<Transaction>)
      requires Valid()
      modifies this
      ensures Valid()
      ensures Step(r, accounts, sent) == CommissionStep(old(accounts), transaction, ledger)
    {
      var found := FindById(transaction.accountId);
      if !found.Just? {
        r, sent := Propagate(found), [];
        return;
      }
      var x := found.value;
      r, sent := Empty, [];
      if x.numberOfTransactions > x.transactionLimit {
        var newAmount := x.amount - x.commission;
        if newAmount >= 0 {
          var t := transaction.(kind := CommissionKind);
          t := t.(customerId := x.customerId);
          t := t.(amount := x.commission);
          t := t.(accountAmount := newAmount);
          x := x.(amount := newAmount);
          sent := [t];
          if ledger.Just? {
            r := Update(x);
          } else {
            r := Propagate(ledger);
          }
        }
      }
    }

    /** doTransactionBetweenAccounts; each leg reads the date on its own. */
    method TransactionBetweenAccounts(t: TransferRequest, withdrawDate: string, depositDate: string,
                                      withdrawLedger: Ack, depositLedger: Ack)
      returns (r: Mono<Account>, sent: seq<Transaction>)
      requires Valid()
      modifies this
      ensures Valid()
      ensures Step(r, accounts, sent) == TransferStep(old(accounts), t, withdrawDate, depositDate, withdrawLedger, depositLedger)
    {
      var sender := Operation(t.senderAccountId, t.amount);
      var receptor := Operation(t.receptorAccountId, t.amount);
      var withdrawn, sentByWithdrawal := Withdraw(sender, withdrawDate, withdrawLedger);
      if withdrawn.Just? {
        var sentByDeposit;
        r, sentByDeposit := Deposit(receptor, depositDate, depositLedger);
        sent := sentByWithdrawal + sentByDeposit;
      } else {
        r, sent := withdrawn, sentByWithdrawal;
      }
    }

    /** doPayCreditThird; `payment` is the body sent to the credit service. */
    method PayCreditThird(t: PayCreditRequest, today: string, credit: Ack, ledger: Ack)
      returns (r: Mono<Account>, payment: Operation, sent: seq<Transaction>)
      requires Valid()
      modifies this
      ensures Valid()
      ensures payment.accountId == t.receptorCreditId && payment.amount == t.amount
      ensures Step(r, accounts, sent) == PayCreditStep(old(accounts), t, today, credit, ledger)
    {
      var sender := Operation(t.senderAccountId, t.amount);
      payment := CreditPayment(t);
      if credit.Just? {
        r, sent := Withdraw(sender, today, ledger);
      } else {
        r, sent := Propagate(credit), [];
      }
    }

    method AssociateToDebitCard(id: string, debitCardId: string, now: string) returns (r: Mono<Account>)
      requires Valid()
      modifies this
      ensures Valid()
      ensures Step(r, accounts, []) == AssociateStep(old(accounts), id, debitCardId, now)
    {
      var found := FindById(id);
      if !found.Just? {
        r := Propagate(found);
        return;
      }
      var account := found.value;
      account := account.(debitCardId := Some(debitCardId));
      account := account.(associationDate := Some(now));
      account := account.(primaryAccount := false);
      r := Update(account);
    }

    method MakePrimaryAccount(id: string) returns (r: Mono<Account>)
      requires Valid()
      modifies this
      ensures Valid()
      ensures Step(r, accounts, []) == MakePrimaryStep(old(accounts), id)
    {
      var found := FindById(id);
      if !found.Just? {
        r := Propagate(found);
        return;
      }
      var account := found.value.(primaryAccount := true);
      r := Update(account);
    }

    /** validateRegister, with the customer, account-type and debt services'
        replies given as inputs. */
    method ValidateRegister<D>(account: Account, today: string, customer: Mono<Customer>,
                               accountType: Mono<AccountType>, debts: Listing<D>)
      returns (r: Mono<Account>)
      requires Valid()
      modifies this
      ensures Valid()
      ensures Step(r, accounts, []) == RegisterStep(old(accounts), account, today, customer, accountType, debts)
    {
      if !customer.Just? {
        r := Propagate(customer);
        return;
      }
      var stamped := account.(creationDate := today);
      if customer.value.customerType == BusinessSegment {
        if accountType.Just? && accountType.value.code == BusinessAccountCode {
          r := Update(stamped);
        } else if accountType.Just? {
          r := Empty;
        } else {
          r := Propagate(accountType);
        }
      } else {
        var hasDebt := FindCustomerHasDebt(debts);
        match hasDebt
        case Just(x) =>
          if x == HasDebt {
            r := Error(OverdueDebtMessage);
          } else {
            // the debt check only ever emits HasDebt
            assert false;
          }
        case Empty =>
          r := Update(stamped);
        case Error(m) =>
          r := Error(m);
      }
    }
  }
}
