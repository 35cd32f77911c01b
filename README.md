# Bank-account service: the transaction orchestrator in Dafny

This project models the balance-changing core of a bank-account microservice.
The service keeps bank accounts in a document store keyed by account id. It
offers deposits, withdrawals, a conditional commission, transfers between
accounts, credit payments from an account, debit-card association, marking an
account as primary, and a registration step gated by the customer's segment
and outstanding debt. Each operation loads one account, computes the new
values, and writes the account back. Deposits, withdrawals and commissions
write only after the transaction ledger has acknowledged; a credit payment
withdraws only after the credit service has replied; registration saves only
after the customer service (and then the account-type or debt service) has
answered; debit-card association and marking an account primary write with no
peer call.

How the model is built:

- `reactive.dfy` defines `Mono<T>`. It stands for the three ways a reactive
  pipeline can end: it emits a value (`Just`), completes empty (`Empty`), or
  fails (`Error`). Every peer reply is an input of this kind: the ledger, the
  credit service, the customer service and the account-type service. A reply
  whose body is never read is an `Ack`, that is, a `Mono<()>`. The debt service
  returns a `Listing` of records, or a failure.
- `accounts.dfy` holds the account document, the operation and ledger-record
  transfer objects, and the request objects. It also defines the store
  invariant `KeyedById`: every account is filed under its own id. The
  repository's `save` is the map write `Save`.
- `orchestrator.dfy` gives one pure transition function per operation. Each
  returns a `Step`: the pipeline's outcome, the new store, and the ledger
  records posted. Each function's `ensures` spells out the outcome and the
  new store for every path. These cover the balance arithmetic, the counter
  going up by one, no change on the empty or unacknowledged path, and the
  exact ledger record.
- `service.dfy` is the service as the source runs it. The class
  `BankAccountService` holds the store as a map field. Its methods fetch an
  account, change the copy field by field, and save it back. Each method is
  proved to perform exactly the transition its function describes.
- `properties.dfy` proves properties that span operations:
  - a transfer withdraws before it deposits, and only deposits after a
    successful withdrawal;
  - a transfer keeps the sum of the two balances;
  - no rollback happens when the deposit leg fails;
  - a credit payment is not undone when the sender cannot cover it;
  - making an account primary is idempotent;
  - the registration gate;
  - worked examples (a deposit followed by a commission, overdrafts).
- `replay.dfy` models any sequence of deposits and withdrawals applied one
  after another. After such a sequence, an account's transaction counter has grown by the number of its
  operations that emitted an account. Its balance has changed by their signed
  amounts.

Where the code departs from what its callers would expect, the model follows the code:

- The commission check after a deposit or withdrawal never runs. The source
  builds the commission pipeline at BankAccountServiceImpl.java lines 137 and
  159 but never subscribes to it. So deposits and withdrawals here charge no
  commission. `CommissionStep` and `BankAccountService.Commission` are a
  separate operation. `DepositThenCommissionScenario` shows both outcomes: a
  balance of 150 after the deposit alone, and 140 once the commission step is
  applied as an explicit second step.
- A withdrawal posts a ledger record of kind `"withdrawl"`, as the code spells
  it.
- If the ledger completes without a body, the operation completes empty. It
  does not fail. If the ledger fails, the failure passes through. Either way,
  nothing is saved.
- The registration debt check fires on any debt record the debt service lists
  for the customer. It does not look at whether the debt is overdue. A failure
  of the customer service, the account-type service or the debt service passes
  through as a failure. An empty reply from the customer service or the
  account-type service gives an empty result.
- A transfer's withdrawal is not rolled back when the deposit leg is not
  acknowledged or the receptor is missing (`TransferKeepsDebitWhenDepositFails`).
- A credit payment goes to the credit service before the sender is checked.
  If the sender is missing or cannot cover the amount, the result is empty
  and nothing is withdrawn, but the credit has already been paid
  (`PayCreditWithoutFunds`).
- A transfer from an account to itself is allowed: it withdraws and deposits
  on the same account, so the balance is unchanged and the counter goes up by
  two (`SelfTransfer`).

## Model

| member | source | states |
|---|---|---|
| Accounts.Save | src/main/java/com/nttdata/bankaccountservice/service/impl/BankAccountServiceImpl.java:49-57 | register and update both save: the account is filed under its own id, the store stays keyed by id, and every other account is unchanged |
| Service.BankAccountService.FindById | src/main/java/com/nttdata/bankaccountservice/service/impl/BankAccountServiceImpl.java:59-63 | emits the stored account exactly when the id is present, otherwise completes empty; never fails |
| Service.BankAccountService.Update | src/main/java/com/nttdata/bankaccountservice/service/impl/BankAccountServiceImpl.java:54-57 | the store becomes the old store with the account saved under its id, and the saved account is emitted |
| Orchestrator.AfterLedger | src/main/java/com/nttdata/bankaccountservice/service/impl/BankAccountServiceImpl.java:131-139 | the record is posted either way; the account is saved and emitted only when the ledger acknowledges; otherwise the store is unchanged and the ledger's empty or failed outcome is the result |
| Orchestrator.DepositStep | src/main/java/com/nttdata/bankaccountservice/service/impl/BankAccountServiceImpl.java:122-141 | missing account: empty, nothing posted, no change; otherwise posts one "deposit" record with the operation amount and the resulting balance; on ledger acknowledgment stores amount = old + op.amount and numberOfTransactions = old + 1 with every other field and account unchanged; without acknowledgment nothing is stored |
| Orchestrator.WithdrawStep | src/main/java/com/nttdata/bankaccountservice/service/impl/BankAccountServiceImpl.java:143-166 | missing account or old - op.amount < 0: empty, nothing posted, store unchanged; otherwise posts one "withdrawl" record with the resulting balance and, on acknowledgment, stores old - op.amount (never negative) and one more transaction; without acknowledgment nothing is stored |
| Orchestrator.CommissionStep | src/main/java/com/nttdata/bankaccountservice/service/impl/BankAccountServiceImpl.java:175-199 | charges only when numberOfTransactions > transactionLimit and amount - commission >= 0: posts the given record rewritten as a "commission" record for the commission and the new balance, and on acknowledgment lowers the balance by exactly the commission, leaving the counter and all else unchanged; otherwise empty with no change; an emitted balance is never negative |
| Orchestrator.TransferStep | src/main/java/com/nttdata/bankaccountservice/service/impl/BankAccountServiceImpl.java:168-173 | the withdrawal runs first with its own date; a withdrawal that does not emit is the whole transfer; once it emits, the deposit runs on the store the withdrawal left, with its own date, and its outcome is the transfer's, its records following the withdrawal's; no account other than the sender and receptor changes; the transfer emits only if the withdrawal emitted and the deposit's ledger acknowledged |
| Orchestrator.PayCreditStep | src/main/java/com/nttdata/bankaccountservice/service/impl/BankAccountServiceImpl.java:238-248 | with a credit reply the outcome is exactly the sender's withdrawal; without one nothing is withdrawn, posted or stored and the credit service's empty or failed outcome is the result |
| Orchestrator.AssociateStep | src/main/java/com/nttdata/bankaccountservice/service/impl/BankAccountServiceImpl.java:206-214 | missing id: empty, no change; otherwise the account gets the card id and association time, its primary flag cleared, every other field unchanged, and is saved and emitted |
| Orchestrator.MakePrimaryStep | src/main/java/com/nttdata/bankaccountservice/service/impl/BankAccountServiceImpl.java:216-224 | missing id: empty, no change; otherwise the primary flag is set and no other field or account changes |
| Orchestrator.FindCustomerHasDebt | src/main/java/com/nttdata/bankaccountservice/service/impl/BankAccountServiceImpl.java:231-236 | emits "1" if and only if the debt service lists at least one record, completes empty for an empty list, fails exactly when the debt service fails |
| Orchestrator.RegisterStep | src/main/java/com/nttdata/bankaccountservice/service/impl/BankAccountServiceImpl.java:83-106 | the only account ever saved is the given one stamped with the creation date, emitted exactly when saved; an empty or failed customer reply passes through with no change; for a business customer a found type with code "3" saves and emits the stamped account, another code gives an empty result and an empty or failed type reply passes through; for any other customer a failed debt lookup passes its failure through, one or more debt records give the overdue-debt error, and none saves the account; no path but a save changes the store |
| Properties.BusinessRegistrationGate | src/main/java/com/nttdata/bankaccountservice/service/impl/BankAccountServiceImpl.java:91-94 | for a "business" customer the account is saved if and only if its account type is found with code "3"; a found type with another code gives an empty result (not an error) and no change; the debt service's reply makes no difference |
| Properties.PersonalRegistrationGate | src/main/java/com/nttdata/bankaccountservice/service/impl/BankAccountServiceImpl.java:95-104 | for any other customer, at least one debt record fails registration with "Customer has overdue debt" and saves nothing; no debt records saves the stamped account |
| Properties.TransferStopsAtFailedWithdrawal | src/main/java/com/nttdata/bankaccountservice/service/impl/BankAccountServiceImpl.java:168-173 | when the sender's withdrawal does not emit (missing sender, insufficient funds, ledger not acknowledging), the transfer does not emit, no deposit record is posted and the store, receptor included, is unchanged |
| Properties.TransferCreditImpliesDebit | src/main/java/com/nttdata/bankaccountservice/service/impl/BankAccountServiceImpl.java:168-173 | whenever a transfer between two accounts changed the receptor, the sender was debited by the amount (and stays non-negative), the receptor credited by it, and the withdrawal record was posted before the deposit record |
| Properties.TransferMovesAmount | src/main/java/com/nttdata/bankaccountservice/service/impl/BankAccountServiceImpl.java:168-173 | a covered, fully acknowledged transfer between two accounts emits the receptor, keeps the sum of both balances, counts one transaction on each and touches no other account |
| Properties.TransferKeepsDebitWhenDepositFails | src/main/java/com/nttdata/bankaccountservice/service/impl/BankAccountServiceImpl.java:168-173 | if the withdrawal is saved but the receptor is missing (result empty, only the withdrawal record posted) or the deposit's ledger does not acknowledge (its outcome passes through, receptor unchanged), the sender stays debited with one more transaction and the transfer does not emit |
| Properties.SelfTransfer | src/main/java/com/nttdata/bankaccountservice/service/impl/BankAccountServiceImpl.java:168-173 | a fully acknowledged, covered transfer from an account to itself leaves the account as it was except for two more transactions, emits it, and posts a withdrawal record then a deposit record |
| Properties.PayCreditWithoutFunds | src/main/java/com/nttdata/bankaccountservice/service/impl/BankAccountServiceImpl.java:238-248 | after the credit service has replied, a missing sender or one holding less than the amount gives an empty result with nothing posted and the store unchanged |
| Properties.MakePrimaryIdempotent | src/main/java/com/nttdata/bankaccountservice/service/impl/BankAccountServiceImpl.java:216-224 | marking an account primary twice gives the same outcome and store as marking it once |
| Properties.DepositThenCommissionScenario | src/main/java/com/nttdata/bankaccountservice/service/impl/BankAccountServiceImpl.java:122-141 | balance 100, limit 5, commission 10, 5 transactions: depositing 50 leaves 150 and 6 transactions, with no commission; applying the commission step to the deposit's record then leaves 140 |
| Properties.OverdraftScenario | src/main/java/com/nttdata/bankaccountservice/service/impl/BankAccountServiceImpl.java:143-166 | withdrawing 50 from 30 emits nothing, posts nothing and changes nothing |
| Properties.TransferOverdraftScenario | src/main/java/com/nttdata/bankaccountservice/service/impl/BankAccountServiceImpl.java:168-173 | a transfer of 50 from a sender holding 20 is empty with no change; the receptor keeps its balance |
| Replay.ApplyCounts | src/main/java/com/nttdata/bankaccountservice/service/impl/BankAccountServiceImpl.java:122-166 | one deposit or withdrawal moves an account's counter by one and its balance by the signed amount exactly when it emitted that account, and leaves both alone otherwise |
| Replay.RunCounts | src/main/java/com/nttdata/bankaccountservice/service/impl/BankAccountServiceImpl.java:122-166 | after any sequence of deposits and withdrawals, an account's counter equals its old value plus the number of its operations that emitted, and its balance equals the old balance plus their signed amounts |
| Replay.WithdrawalsKeepBalance | src/main/java/com/nttdata/bankaccountservice/service/impl/BankAccountServiceImpl.java:143-166 | any sequence of withdrawals keeps a non-negative balance non-negative |
| Service.BankAccountService.Deposit | src/main/java/com/nttdata/bankaccountservice/service/impl/BankAccountServiceImpl.java:122-141 | outcome, new store and posted records are exactly DepositStep's; the store stays keyed by id |
| Service.BankAccountService.Withdraw | src/main/java/com/nttdata/bankaccountservice/service/impl/BankAccountServiceImpl.java:143-166 | outcome, new store and posted records are exactly WithdrawStep's |
| Service.BankAccountService.Commission | src/main/java/com/nttdata/bankaccountservice/service/impl/BankAccountServiceImpl.java:175-199 | outcome, new store and posted record are exactly CommissionStep's |
| Service.BankAccountService.TransactionBetweenAccounts | src/main/java/com/nttdata/bankaccountservice/service/impl/BankAccountServiceImpl.java:168-173 | runs Withdraw with the first date, then Deposit with the second only if the withdrawal emitted; outcome, store and records (withdrawal's first) are exactly TransferStep's |
| Service.BankAccountService.PayCreditThird | src/main/java/com/nttdata/bankaccountservice/service/impl/BankAccountServiceImpl.java:238-248 | sends the credit id and amount to the credit service; outcome, store and records are exactly PayCreditStep's |
| Service.BankAccountService.AssociateToDebitCard | src/main/java/com/nttdata/bankaccountservice/service/impl/BankAccountServiceImpl.java:206-214 | outcome and new store are exactly AssociateStep's |
| Service.BankAccountService.MakePrimaryAccount | src/main/java/com/nttdata/bankaccountservice/service/impl/BankAccountServiceImpl.java:216-224 | outcome and new store are exactly MakePrimaryStep's |
| Service.BankAccountService.ValidateRegister | src/main/java/com/nttdata/bankaccountservice/service/impl/BankAccountServiceImpl.java:83-106 | outcome and new store are exactly RegisterStep's |

## Left out

- Amounts are unbounded integers. The source keeps balances and commissions as `float` and adds and subtracts them in single precision. The model makes no claim about rounding.
- HTTP calls to the ledger, credit, customer, account-type and debt services are left out, with their paths, headers and serialisation. Each reply is a parameter (`Mono` or `Listing`). The ledger's and credit service's reply bodies are not read by the source, so they are not modelled. `findCustomerById`, a plain HTTP lookup of the customer service with no logic of its own, is left out with them.
- Dates (`LocalDate.now()`, `LocalDateTime.now()`) are opaque string parameters. A transfer takes one date per leg, since each leg reads the clock on its own.
- Reactor scheduling and subscription are not modelled. The one exception: the commission pipeline at lines 137 and 159 is never subscribed, so the model runs no commission after a deposit or withdrawal.
- Concurrent operations on the same account are not modelled. The source has no locking. Each operation here is one atomic transition, so lost updates between concurrent withdrawals are not captured.
- Error paths of the store itself (a failing `findById` or `save`) are left out. The store is taken to be reliable.
- Registration takes the new account's id as given. The id the document store would generate for an account without one is not modelled.
- The plain repository pass-throughs are left out, because they add no logic over a store the model does not see: `findAll`, `delete`, `existsById`, `findByCustomerIdAndType`, `validateBankAccount`, `findAccountsByDebitCard`, `findByCustomerId`, `findByNumberAccount`.
- The message-bus listener `Consumer.makePrimaryAccountKafka` is left out. Its only logic sets the primary flag and saves, which is the transition `MakePrimaryStep` already models.
- Logging is left out.
