/** The documents and transfer objects the bank-account service works on,
    and the account store as a map from account id to account. */
module Accounts {
  import opened Reactive

  /** A bank account document. Amounts are whole currency units. */
  datatype Account = Account(
    id: string,
    customerId: string,
    accountType: string,            // id of the account type, resolved by the account-type service
    amount: int,                    // current balance
    numberOfTransactions: int,
    transactionLimit: int,          // above this many transactions a commission is due
    commission: int,                // the fixed amount charged once the limit is exceeded
    debitCardId: Option<string>,
    primaryAccount: bool,
    creationDate: string,
    associationDate: Option<string>)

  /** A deposit or withdrawal request: the account and the amount. */
  datatype Operation = Operation(accountId: string, amount: int)

  /** The record posted to the transaction ledger. `kind` is the record's type. */
  datatype Transaction = Transaction(
    date: string,
    amount: int,
    kind: string,
    customerId: string,
    accountId: string,
    accountAmount: int,             // the balance the operation leaves behind
    debitCardId: Option<string>)

  /** A transfer of `amount` from one account to another. */
  datatype TransferRequest = TransferRequest(senderAccountId: string, receptorAccountId: string, amount: int)

  /** A payment of `amount` from an account to a credit held elsewhere. */
  datatype PayCreditRequest = PayCreditRequest(senderAccountId: string, receptorCreditId: string, amount: int)

  /** The customer record the customer service returns; only its segment is read. */
  datatype Customer = Customer(customerType: string)

  /** The account-type record the account-type service returns; only its code is read. */
  datatype AccountType = AccountType(code: string)

  /** The store's invariant: every account is filed under its own id. */
  predicate KeyedById(accounts: map<string, Account>)
  {
    forall k :: k in accounts ==> accounts[k].id == k
  }

  /** Every account other than the one under `id` is still there, unchanged. */
  predicate Untouched(before: map<string, Account>, after: map<string, Account>, id: string)
  {
    forall k :: k in before && k != id ==> k in after && after[k] == before[k]
  }

  /** The repository's save: the account replaces whatever was filed under its id. */
  function Save(accounts: map<string, Account>, a: Account): (r: map<string, Account>)
    ensures KeyedById(accounts) ==> KeyedById(r)
    ensures r.Keys == accounts.Keys + {a.id}
    ensures a.id in r && r[a.id] == a
    ensures Untouched(accounts, r, a.id)
  {
    accounts[a.id := a]
  }
}
