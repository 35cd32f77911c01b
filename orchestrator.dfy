/** The transaction orchestrator as state transitions over the account store.
    Each function takes the store, the request and the replies of the peers it
    consults, and gives the pipeline's outcome, the new store and the ledger
    records posted on the way. The class in module Service is proved to perform
    exactly these transitions. */
module Orchestrator {
  import opened Reactive
  import opened Accounts

  /** One operation's effect: its outcome, the store afterwards, and the
      records it posted to the ledger, in order. */
  datatype Step = Step(result: Mono<Account>, accounts: map<string, Account>, sent: seq<Transaction>)

  const DepositKind := "deposit"
  const WithdrawalKind := "withdrawl"       // spelled this way in the records the service posts
  const CommissionKind := "commission"
  const BusinessSegment := "business"
  const BusinessAccountCode := "3"
  const HasDebt := "1"
  const OverdueDebtMessage := "Customer has overdue debt"

  /** The record a deposit or withdrawal posts to the ledger. */
  function OperationRecord(a: Account, op: Operation, kind: string, newAmount: int, today: string): Transaction
  {
    Transaction(today, op.amount, kind, a.customerId, op.accountId, newAmount, a.debitCardId)
  }

  /** Post `record` and, only if the ledger acknowledges, save `a`: the write
      sits inside the ledger reply's flatMap. */
  function AfterLedger(accounts: map<string, Account>, a: Account, record: Transaction, ledger: Ack): (s: Step)
    requires KeyedById(accounts) && a.id in accounts
    ensures KeyedById(s.accounts) && s.accounts.Keys == accounts.Keys
    ensures Untouched(accounts, s.accounts, a.id)
    ensures s.sent == [record]
    ensures ledger.Just? ==> s.result == Just(a) && s.accounts[a.id] == a
    ensures !ledger.Just? ==> s.accounts == accounts && s.result == Propagate(ledger)
  {
    match ledger
    case Just(_) => Step(Just(a), Save(accounts, a), [record])
    case _ => Step(Propagate(ledger), accounts, [record])
  }

  /** doDeposit: add the amount, count one more transaction, post a "deposit"
      record carrying the new balance, and save once the ledger acknowledges.
      The follow-up commission check is not part of it (see CommissionStep). */
  function DepositStep(accounts: map<string, Account>, op: Operation, today: string, ledger: Ack): (s: Step)
    requires KeyedById(accounts)
    ensures KeyedById(s.accounts) && s.accounts.Keys == accounts.Keys
    ensures Untouched(accounts, s.accounts, op.accountId)
    ensures op.accountId !in accounts ==> s == Step(Empty, accounts, [])
    ensures op.accountId in accounts ==>
      var a := accounts[op.accountId];
      && |s.sent| == 1
      && s.sent[0].kind == DepositKind && s.sent[0].date == today
      && s.sent[0].amount == op.amount && s.sent[0].accountAmount == a.amount + op.amount
      && s.sent[0].accountId == op.accountId && s.sent[0].customerId == a.customerId
      && s.sent[0].debitCardId == a.debitCardId
      && (s.result.Just? <==> ledger.Just?)
      && (ledger.Just? ==>
            && s.accounts[op.accountId] == a.(amount := a.amount + op.amount,
                                              numberOfTransactions := a.numberOfTransactions + 1)
            && s.result.value == s.accounts[op.accountId])
      && (!ledger.Just? ==> s.accounts == accounts && s.result == Propagate(ledger))
  {
    if op.accountId !in accounts then Step(Empty, accounts, [])
    else
      var a := accounts[op.accountId];
      var newAmount := a.amount + op.amount;
      var record := OperationRecord(a, op, DepositKind, newAmount, today);
      AfterLedger(accounts, a.(amount := newAmount, numberOfTransactions := a.numberOfTransactions + 1), record, ledger)
  }

  /** doWithDrawl: refuse (empty, nothing posted, nothing saved) when the
      balance would go negative; otherwise as a deposit of the negated amount,
      posting a "withdrawl" record. */
  function WithdrawStep(accounts: map<string, Account>, op: Operation, today: string, ledger: Ack): (s: Step)
    requires KeyedById(accounts)
    ensures KeyedById(s.accounts) && s.accounts.Keys == accounts.Keys
    ensures Untouched(accounts, s.accounts, op.accountId)
    ensures op.accountId !in accounts ==> s == Step(Empty, accounts, [])
    ensures op.accountId in accounts && accounts[op.accountId].amount - op.amount < 0 ==>
      s == Step(Empty, accounts, [])
    ensures op.accountId in accounts && accounts[op.accountId].amount - op.amount >= 0 ==>
      var a := accounts[op.accountId];
      && |s.sent| == 1
      && s.sent[0].kind == WithdrawalKind && s.sent[0].date == today
      && s.sent[0].amount == op.amount && s.sent[0].accountAmount == a.amount - op.amount
      && s.sent[0].accountId == op.accountId && s.sent[0].customerId == a.customerId
      && s.sent[0].debitCardId == a.debitCardId
      && (s.result.Just? <==> ledger.Just?)
      && (ledger.Just? ==>
            && s.accounts[op.accountId] == a.(amount := a.amount - op.amount,
                                              numberOfTransactions := a.numberOfTransactions + 1)
            && s.result.value == s.accounts[op.accountId])
      && (!ledger.Just? ==> s.accounts == accounts && s.result == Propagate(ledger))
    ensures s.result.Just? ==> s.result.value.amount >= 0
  {
    if op.accountId !in accounts then Step(Empty, accounts, [])
    else
      var a := accounts[op.accountId];
      var newAmount := a.amount - op.amount;
      if newAmount >= 0 then
        var record := OperationRecord(a, op, WithdrawalKind, newAmount, today);
        AfterLedger(accounts, a.(amount := newAmount, numberOfTransactions := a.numberOfTransactions + 1), record, ledger)
      else
        Step(Empty, accounts, [])
  }

  /** Whether doCommission charges the account: more transactions than the
      limit, and the charge leaves the balance non-negative. */
  predicate CommissionDue(a: Account)
  {
    a.numberOfTransactions > a.transactionLimit && a.amount - a.commission >= 0
  }

  /** doCommission: for the account the record names, when a commission is
      due, rewrite the record as a "commission" record, post it, and on
      acknowledgment save the balance lowered by the commission. */
  function CommissionStep(accounts: map<string, Account>, t: Transaction, ledger: Ack): (s: Step)
    requires KeyedById(accounts)
    ensures KeyedById(s.accounts) && s.accounts.Keys == accounts.Keys
    ensures Untouched(accounts, s.accounts, t.accountId)
    ensures t.accountId !in accounts || !CommissionDue(accounts[t.accountId]) ==>
      s == Step(Empty, accounts, [])
    ensures t.accountId in accounts && CommissionDue(accounts[t.accountId]) ==>
      var a := accounts[t.accountId];
      && s.sent == [t.(kind := CommissionKind, customerId := a.customerId,
                       amount := a.commission, accountAmount := a.amount - a.commission)]
      && (s.result.Just? <==> ledger.Just?)
      && (ledger.Just? ==>
            && s.accounts[t.accountId] == a.(amount := a.amount - a.commission)
            && s.result.value == s.accounts[t.accountId])
      && (!ledger.Just? ==> s.accounts == accounts && s.result == Propagate(ledger))
    ensures s.result.Just? ==> s.result.value.amount >= 0
  {
    if t.accountId !in accounts then Step(Empty, accounts, [])
    else
      var a := accounts[t.accountId];
      if a.numberOfTransactions > a.transactionLimit then
        var newAmount := a.amount - a.commission;
        if newAmount >= 0 then
          var record := t.(kind := CommissionKind, customerId := a.customerId,
                           amount := a.commission, accountAmount := newAmount);
          AfterLedger(accounts, a.(amount := newAmount), record, ledger)
        else
          Step(Empty, accounts, [])
      else
        Step(Empty, accounts, [])
  }

  /** doTransactionBetweenAccounts: withdraw from the sender and, only if the
      withdrawal emitted an account, deposit the same amount to the receptor
      in the store the withdrawal left. Each leg stamps its record with its
      own date. */
  function TransferStep(accounts: map<string, Account>, t: TransferRequest,
                        withdrawDate: string, depositDate: string,
                        withdrawLedger: Ack, depositLedger: Ack): (s: Step)
    requires KeyedById(accounts)
    ensures KeyedById(s.accounts) && s.accounts.Keys == accounts.Keys
    ensures forall k :: k in accounts && k != t.senderAccountId && k != t.receptorAccountId ==>
      s.accounts[k] == accounts[k]
    ensures var w := WithdrawStep(accounts, Operation(t.senderAccountId, t.amount), withdrawDate, withdrawLedger);
      && w.sent <= s.sent
      && (!w.result.Just? ==> s == w)
      && (w.result.Just? ==>
            var d := DepositStep(w.accounts, Operation(t.receptorAccountId, t.amount), depositDate, depositLedger);
            s == Step(d.result, d.accounts, w.sent + d.sent))
      && (s.result.Just? ==> w.result.Just? && depositLedger.Just?)
  {
    var w := WithdrawStep(accounts, Operation(t.senderAccountId, t.amount), withdrawDate, withdrawLedger);
    match w.result
    case Just(_) =>
      var d := DepositStep(w.accounts, Operation(t.receptorAccountId, t.amount), depositDate, depositLedger);
      Step(d.result, d.accounts, w.sent + d.sent)
    case _ => w
  }

  /** The request body sent to the credit service: the credit id in the
      account-id slot, and the amount. */
  function CreditPayment(t: PayCreditRequest): Operation
  {
    Operation(t.receptorCreditId, t.amount)
  }

  /** doPayCreditThird: ask the credit service to take the payment and, only
      once it replies with a credit, withdraw the amount from the sender. */
  function PayCreditStep(accounts: map<string, Account>, t: PayCreditRequest, today: string,
                         credit: Ack, ledger: Ack): (s: Step)
    requires KeyedById(accounts)
    ensures KeyedById(s.accounts) && s.accounts.Keys == accounts.Keys
    ensures credit.Just? ==> s == WithdrawStep(accounts, Operation(t.senderAccountId, t.amount), today, ledger)
    ensures !credit.Just? ==> s == Step(Propagate(credit), accounts, [])
  {
    match credit
    case Just(_) => WithdrawStep(accounts, Operation(t.senderAccountId, t.amount), today, ledger)
    case _ => Step(Propagate(credit), accounts, [])
  }

  /** associateToDebitCard: link the card, stamp the association time and
      clear the primary flag. */
  function AssociateStep(accounts: map<string, Account>, id: string, cardId: string, now: string): (s: Step)
    requires KeyedById(accounts)
    ensures KeyedById(s.accounts) && s.accounts.Keys == accounts.Keys && s.sent == []
    ensures Untouched(accounts, s.accounts, id)
    ensures id !in accounts ==> s.result == Empty && s.accounts == accounts
    ensures id in accounts ==>
      && s.result == Just(s.accounts[id])
      && s.accounts[id].debitCardId == Some(cardId)
      && s.accounts[id].associationDate == Some(now)
      && !s.accounts[id].primaryAccount
      && s.accounts[id].(debitCardId := accounts[id].debitCardId,
                         associationDate := accounts[id].associationDate,
                         primaryAccount := accounts[id].primaryAccount) == accounts[id]
  {
    if id !in accounts then Step(Empty, accounts, [])
    else
      var a := accounts[id].(debitCardId := Some(cardId), associationDate := Some(now), primaryAccount := false);
      Step(Just(a), Save(accounts, a), [])
  }

  /** makePrimaryAccount: raise the primary flag and change nothing else. */
  function MakePrimaryStep(accounts: map<string, Account>, id: string): (s: Step)
    requires KeyedById(accounts)
    ensures KeyedById(s.accounts) && s.accounts.Keys == accounts.Keys && s.sent == []
    ensures Untouched(accounts, s.accounts, id)
    ensures id !in accounts ==> s.result == Empty && s.accounts == accounts
    ensures id in accounts ==>
      && s.result == Just(s.accounts[id])
      && s.accounts[id].primaryAccount
      && s.accounts[id].(primaryAccount := accounts[id].primaryAccount) == accounts[id]
  {
    if id !in accounts then Step(Empty, accounts, [])
    else
      var a := accounts[id].(primaryAccount := true);
      Step(Just(a), Save(accounts, a), [])
  }

  /** findCustomerHasDebt: emits "1" when the debt service lists at least one
      debt record, completes empty when it lists none, fails when it fails. */
  function FindCustomerHasDebt<D>(debts: Listing<D>): (r: Mono<string>)
    ensures r.Just? <==> debts.Listed? && debts.items != []
    ensures r.Just? ==> r.value == HasDebt
    ensures r.Error? <==> debts.ListFailed?
    ensures r.Error? ==> r.message == debts.message
  {
    match debts
    case Listed(items) => if |items| > 0 then Just(HasDebt) else Empty
    case ListFailed(m) => Error(m)
  }

  /** validateRegister: stamp the creation date, then for a business customer
      save only an account whose type has code "3"; for any other customer
      fail if the debt check signals a debt and save otherwise. */
  function RegisterStep<D>(accounts: map<string, Account>, account: Account, today: string,
                           customer: Mono<Customer>, accountType: Mono<AccountType>,
                           debts: Listing<D>): (s: Step)
    requires KeyedById(accounts)
    ensures KeyedById(s.accounts) && s.sent == []
    ensures s.result.Just? ==> s.result == Just(account.(creationDate := today))
                               && s.accounts == Save(accounts, account.(creationDate := today))
    ensures !s.result.Just? ==> s.accounts == accounts
    ensures !customer.Just? ==> s == Step(Propagate(customer), accounts, [])
    ensures customer.Just? && customer.value.customerType == BusinessSegment ==>
      && (accountType.Just? && accountType.value.code == BusinessAccountCode ==>
            s == Step(Just(account.(creationDate := today)), Save(accounts, account.(creationDate := today)), []))
      && (accountType.Just? && accountType.value.code != BusinessAccountCode ==> s == Step(Empty, accounts, []))
      && (!accountType.Just? ==> s == Step(Propagate(accountType), accounts, []))
    ensures customer.Just? && customer.value.customerType != BusinessSegment ==>
      && (debts.ListFailed? ==> s == Step(Error(debts.message), accounts, []))
      && (debts.Listed? && debts.items != [] ==> s == Step(Error(OverdueDebtMessage), accounts, []))
      && (debts.Listed? && debts.items == [] ==> s.result.Just?)
  {
    match customer
    case Just(c) =>
      var stamped := account.(creationDate := today);
      if c.customerType == BusinessSegment then
        (match accountType
         case Just(at) =>
           if at.code == BusinessAccountCode then Step(Just(stamped), Save(accounts, stamped), [])
           else Step(Empty, accounts, [])
         case _ => Step(Propagate(accountType), accounts, []))
      else
        (match FindCustomerHasDebt(debts)
         case Just(x) =>
           if x == HasDebt then Step(Error(OverdueDebtMessage), accounts, [])
           else Step(Just(stamped), Save(accounts, stamped), [])
         case Empty => Step(Just(stamped), Save(accounts, stamped), [])
         case Error(m) => Step(Error(m), accounts, []))
    case _ => Step(Propagate(customer), accounts, [])
  }
}
