/** What the orchestrator's transitions guarantee across operations: the
    order of a transfer's two legs, idempotence of the primary flag, the
    registration gate, and worked examples. */
module Properties {
  import opened Reactive
  import opened Accounts
  import opened Orchestrator

  /** A transfer whose withdrawal did not emit an account is exactly that
      withdrawal: the deposit never runs, so no deposit record is posted and
      the store (the receptor included) is unchanged. */
  lemma TransferStopsAtFailedWithdrawal(accounts: map<string, Account>, t: TransferRequest, withdrawDate: string, depositDate: string,
                                        withdrawLedger: Ack, depositLedger: Ack)
    requires KeyedById(accounts)
    requires !WithdrawStep(accounts, Operation(t.senderAccountId, t.amount), withdrawDate, withdrawLedger).result.Just?
    ensures var s := TransferStep(accounts, t, withdrawDate, depositDate, withdrawLedger, depositLedger);
      && s.accounts == accounts
      && !s.result.Just?
      && (forall i :: 0 <= i < |s.sent| ==> s.sent[i].kind != DepositKind)
  {
    var w := WithdrawStep(accounts, Operation(t.senderAccountId, t.amount), withdrawDate, withdrawLedger);
    assert TransferStep(accounts, t, withdrawDate, depositDate, withdrawLedger, depositLedger) == w;
  }

  /** The receptor is never credited unless the sender was debited first:
      whenever a transfer between two accounts changed the receptor, the
      sender's balance went down by the amount and the withdrawal record was
      posted before the deposit record. */
  lemma TransferCreditImpliesDebit(accounts: map<string, Account>, t: TransferRequest, withdrawDate: string, depositDate: string,
                                   withdrawLedger: Ack, depositLedger: Ack)
    requires KeyedById(accounts)
    requires t.senderAccountId != t.receptorAccountId && t.receptorAccountId in accounts
    requires TransferStep(accounts, t, withdrawDate, depositDate, withdrawLedger, depositLedger).accounts[t.receptorAccountId]
             != accounts[t.receptorAccountId]
    ensures var s := TransferStep(accounts, t, withdrawDate, depositDate, withdrawLedger, depositLedger);
      && t.senderAccountId in accounts
      && s.accounts[t.senderAccountId].amount == accounts[t.senderAccountId].amount - t.amount
      && s.accounts[t.senderAccountId].amount >= 0
      && s.accounts[t.receptorAccountId].amount == accounts[t.receptorAccountId].amount + t.amount
      && |s.sent| == 2 && s.sent[0].kind == WithdrawalKind && s.sent[1].kind == DepositKind
  {
    var sender := Operation(t.senderAccountId, t.amount);
    var w := WithdrawStep(accounts, sender, withdrawDate, withdrawLedger);
    if !w.result.Just? {
      TransferStopsAtFailedWithdrawal(accounts, t, withdrawDate, depositDate, withdrawLedger, depositLedger);
    }
  }

  /** A transfer between two accounts that both peers acknowledge and the
      sender can cover moves the amount and keeps the two balances' sum. */
  lemma TransferMovesAmount(accounts: map<string, Account>, t: TransferRequest, withdrawDate: string, depositDate: string,
                            withdrawLedger: Ack, depositLedger: Ack)
    requires KeyedById(accounts)
    requires t.senderAccountId != t.receptorAccountId
    requires t.senderAccountId in accounts && t.receptorAccountId in accounts
    requires accounts[t.senderAccountId].amount >= t.amount
    requires withdrawLedger.Just? && depositLedger.Just?
    ensures var s := TransferStep(accounts, t, withdrawDate, depositDate, withdrawLedger, depositLedger);
      && s.result == Just(s.accounts[t.receptorAccountId])
      && s.accounts[t.senderAccountId].amount + s.accounts[t.receptorAccountId].amount
         == accounts[t.senderAccountId].amount + accounts[t.receptorAccountId].amount
      && s.accounts[t.senderAccountId].numberOfTransactions == accounts[t.senderAccountId].numberOfTransactions + 1
      && s.accounts[t.receptorAccountId].numberOfTransactions == accounts[t.receptorAccountId].numberOfTransactions + 1
      && (forall k :: k in accounts && k != t.senderAccountId && k != t.receptorAccountId ==>
            k in s.accounts && s.accounts[k] == accounts[k])
  {
  }

  /** Nothing rolls the withdrawal back: if the withdrawal was saved but the
      receptor is missing or the deposit's ledger did not acknowledge, the
      sender stays debited, the receptor (if any) is unchanged and the
      transfer does not emit. */
  lemma TransferKeepsDebitWhenDepositFails(accounts: map<string, Account>, t: TransferRequest, withdrawDate: string, depositDate: string,
                                           withdrawLedger: Ack, depositLedger: Ack)
    requires KeyedById(accounts)
    requires t.senderAccountId != t.receptorAccountId
    requires t.senderAccountId in accounts
    requires accounts[t.senderAccountId].amount >= t.amount
    requires withdrawLedger.Just?
    requires t.receptorAccountId !in accounts || !depositLedger.Just?
    ensures var s := TransferStep(accounts, t, withdrawDate, depositDate, withdrawLedger, depositLedger);
      && !s.result.Just?
      && (t.receptorAccountId !in accounts ==> s.result == Empty && |s.sent| == 1)
      && (t.receptorAccountId in accounts ==> s.result == Propagate(depositLedger)
                                              && s.accounts[t.receptorAccountId] == accounts[t.receptorAccountId])
      && s.accounts[t.senderAccountId].amount == accounts[t.senderAccountId].amount - t.amount
      && s.accounts[t.senderAccountId].numberOfTransactions == accounts[t.senderAccountId].numberOfTransactions + 1
  {
  }

  /** A transfer from an account to itself that both ledgers acknowledge
      withdraws and then deposits on the same account: the balance ends where
      it started, the counter goes up by two, and two records are posted. */
  lemma SelfTransfer(accounts: map<string, Account>, t: TransferRequest, withdrawDate: string, depositDate: string,
                     withdrawLedger: Ack, depositLedger: Ack)
    requires KeyedById(accounts)
    requires t.senderAccountId == t.receptorAccountId && t.senderAccountId in accounts
    requires accounts[t.senderAccountId].amount >= t.amount
    requires withdrawLedger.Just? && depositLedger.Just?
    ensures var s := TransferStep(accounts, t, withdrawDate, depositDate, withdrawLedger, depositLedger);
      && s.result == Just(s.accounts[t.senderAccountId])
      && s.accounts[t.senderAccountId] == accounts[t.senderAccountId].(
           numberOfTransactions := accounts[t.senderAccountId].numberOfTransactions + 2)
      && |s.sent| == 2 && s.sent[0].kind == WithdrawalKind && s.sent[1].kind == DepositKind
  {
  }

  /** The credit is paid before the sender is checked: once the credit
      service has replied, a sender that cannot cover the amount gives an
      empty result, with no withdrawal posted and the store unchanged, while
      the payment has already gone out. */
  lemma PayCreditWithoutFunds(accounts: map<string, Account>, t: PayCreditRequest, today: string,
                              credit: Ack, ledger: Ack)
    requires KeyedById(accounts) && credit.Just?
    requires t.senderAccountId !in accounts || accounts[t.senderAccountId].amount < t.amount
    ensures PayCreditStep(accounts, t, today, credit, ledger) == Step(Empty, accounts, [])
  {
  }

  /** Raising the primary flag twice leaves the store as raising it once. */
  lemma MakePrimaryIdempotent(accounts: map<string, Account>, id: string)
    requires KeyedById(accounts)
    ensures var once := MakePrimaryStep(accounts, id);
      MakePrimaryStep(once.accounts, id) == once
  {
  }

  /** For a business customer an account is saved exactly when the account
      type is found and its code is "3"; a found type with another code gives
      an empty result (not an error); the debt service is not consulted. */
  lemma BusinessRegistrationGate<D>(accounts: map<string, Account>, account: Account, today: string,
                                    c: Customer, accountType: Mono<AccountType>, debts: Listing<D>)
    requires KeyedById(accounts) && c.customerType == BusinessSegment
    ensures var s := RegisterStep(accounts, account, today, Just(c), accountType, debts);
      && (s.result.Just? <==> accountType.Just? && accountType.value.code == BusinessAccountCode)
      && (accountType.Just? && accountType.value.code != BusinessAccountCode ==> s == Step(Empty, accounts, []))
      && (forall other: Listing<D> :: RegisterStep(accounts, account, today, Just(c), accountType, other) == s)
  {
  }

  /** For any other customer, at least one debt record makes registration
      fail with the overdue-debt error and save nothing; no records lets the
      account be saved whatever the account type. */
  lemma PersonalRegistrationGate<D>(accounts: map<string, Account>, account: Account, today: string,
                                    c: Customer, accountType: Mono<AccountType>, debts: seq<D>)
    requires KeyedById(accounts) && c.customerType != BusinessSegment
    ensures var s := RegisterStep(accounts, account, today, Just(c), accountType, Listed(debts));
      && (debts != [] ==> s == Step(Error(OverdueDebtMessage), accounts, []))
      && (debts == [] ==> s.result == Just(account.(creationDate := today))
                          && s.accounts == Save(accounts, account.(creationDate := today)))
  {
  }

  /** A deposit as the service runs it does not charge the commission: the
      commission check it triggers is a separate step. With balance 100,
      limit 5, commission 10 and 5 transactions, depositing 50 leaves 150 and
      6 transactions; running the commission step on the deposit's record
      afterwards brings the balance to 140. */
  lemma DepositThenCommissionScenario(accounts: map<string, Account>, id: string, today: string,
                                      depositLedger: Ack, commissionLedger: Ack)
    requires KeyedById(accounts) && id in accounts
    requires accounts[id].amount == 100 && accounts[id].transactionLimit == 5
    requires accounts[id].commission == 10 && accounts[id].numberOfTransactions == 5
    requires depositLedger.Just? && commissionLedger.Just?
    ensures var d := DepositStep(accounts, Operation(id, 50), today, depositLedger);
      && d.accounts[id].amount == 150 && d.accounts[id].numberOfTransactions == 6
      && var c := CommissionStep(d.accounts, d.sent[0], commissionLedger);
         && c.accounts[id].amount == 140 && c.accounts[id].numberOfTransactions == 6
         && c.sent[0].kind == CommissionKind && c.sent[0].amount == 10 && c.sent[0].accountAmount == 140
  {
  }

  /** Withdrawing 50 from a balance of 30 emits nothing, posts nothing and
      changes nothing, whatever the ledger would have replied. */
  lemma OverdraftScenario(accounts: map<string, Account>, id: string, today: string, ledger: Ack)
    requires KeyedById(accounts) && id in accounts && accounts[id].amount == 30
    ensures WithdrawStep(accounts, Operation(id, 50), today, ledger) == Step(Empty, accounts, [])
  {
  }

  /** A transfer of 50 from a sender holding 20 stops at the withdrawal and
      leaves the receptor's balance as it was. */
  lemma TransferOverdraftScenario(accounts: map<string, Account>, t: TransferRequest, withdrawDate: string, depositDate: string,
                                  withdrawLedger: Ack, depositLedger: Ack)
    requires KeyedById(accounts) && t.senderAccountId in accounts && t.receptorAccountId in accounts
    requires accounts[t.senderAccountId].amount == 20 && t.amount == 50
    ensures var s := TransferStep(accounts, t, withdrawDate, depositDate, withdrawLedger, depositLedger);
      s == Step(Empty, accounts, []) && s.accounts[t.receptorAccountId] == accounts[t.receptorAccountId]
  {
  }
}
