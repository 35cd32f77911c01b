/** A run of deposits and withdrawals, one after another, each seeing the
    store the previous one left. Over such a run an account's transaction
    counter grows by exactly the number of operations on it that emitted an
    account, and its balance by their signed amounts. */
module Replay {
  import opened Reactive
  import opened Accounts
  import opened Orchestrator

  /** One deposit or withdrawal together with the ledger's reply to it. */
  datatype Request =
    | DepositRequest(op: Operation, ledger: Ack)
    | WithdrawalRequest(op: Operation, ledger: Ack)

  /** The store after a run, and each operation's outcome in order. */
  datatype Trace = Trace(accounts: map<string, Account>, results: seq<Mono<Account>>)

  function Apply(accounts: map<string, Account>, r: Request, today: string): (s: Step)
    requires KeyedById(accounts)
    ensures KeyedById(s.accounts) && s.accounts.Keys == accounts.Keys
  {
    match r
    case DepositRequest(op, ledger) => DepositStep(accounts, op, today, ledger)
    case WithdrawalRequest(op, ledger) => WithdrawStep(accounts, op, today, ledger)
  }

  /** The signed change a request asks for: plus for a deposit, minus for a withdrawal. */
  function Delta(r: Request): int
  {
    match r
    case DepositRequest(op, _) => op.amount
    case WithdrawalRequest(op, _) => -op.amount
  }

  function Run(accounts: map<string, Account>, rs: seq<Request>, today: string): (t: Trace)
    requires KeyedById(accounts)
    ensures KeyedById(t.accounts) && t.accounts.Keys == accounts.Keys
    ensures |t.results| == |rs|
    decreases |rs|
  {
    if rs == [] then Trace(accounts, [])
    else
      var s := Apply(accounts, rs[0], today);
      var rest := Run(s.accounts, rs[1..], today);
      Trace(rest.accounts, [s.result] + rest.results)
  }

  /** How many of the requests on `id` emitted an account. */
  function Succeeded(rs: seq<Request>, results: seq<Mono<Account>>, id: string): nat
    requires |results| == |rs|
    decreases |rs|
  {
    if rs == [] then 0
    else (if results[0].Just? && rs[0].op.accountId == id then 1 else 0)
         + Succeeded(rs[1..], results[1..], id)
  }

  /** The summed signed amounts of the requests on `id` that emitted an account. */
  function NetChange(rs: seq<Request>, results: seq<Mono<Account>>, id: string): int
    requires |results| == |rs|
    decreases |rs|
  {
    if rs == [] then 0
    else (if results[0].Just? && rs[0].op.accountId == id then Delta(rs[0]) else 0)
         + NetChange(rs[1..], results[1..], id)
  }

  /** One request moves the counter by one and the balance by its signed
      amount exactly when it emitted an account for `id`, and leaves both
      alone otherwise. */
  lemma ApplyCounts(accounts: map<string, Account>, r: Request, today: string, id: string)
    requires KeyedById(accounts) && id in accounts
    ensures var s := Apply(accounts, r, today);
      var hit := s.result.Just? && r.op.accountId == id;
      && s.accounts[id].numberOfTransactions == accounts[id].numberOfTransactions + (if hit then 1 else 0)
      && s.accounts[id].amount == accounts[id].amount + (if hit then Delta(r) else 0)
  {
  }

  /** After any run, the counter of `id` has grown by the number of its
      operations that emitted an account, and the balance by their signed
      amounts. */
  lemma {:induction false} RunCounts(accounts: map<string, Account>, rs: seq<Request>, today: string, id: string)
    requires KeyedById(accounts) && id in accounts
    ensures var t := Run(accounts, rs, today);
      && t.accounts[id].numberOfTransactions
         == accounts[id].numberOfTransactions + Succeeded(rs, t.results, id)
      && t.accounts[id].amount == accounts[id].amount + NetChange(rs, t.results, id)
    decreases |rs|
  {
    if rs != [] {
      var s := Apply(accounts, rs[0], today);
      ApplyCounts(accounts, rs[0], today, id);
      RunCounts(s.accounts, rs[1..], today, id);
      var t := Run(accounts, rs, today);
      var rest := Run(s.accounts, rs[1..], today);
      assert t.results[1..] == rest.results;
    }
  }

  /** A run made only of withdrawals never takes a non-negative balance
      below zero: every withdrawal that emits leaves at least zero behind. */
  lemma {:induction false} WithdrawalsKeepBalance(accounts: map<string, Account>, rs: seq<Request>, today: string, id: string)
    requires KeyedById(accounts) && id in accounts && accounts[id].amount >= 0
    requires forall i :: 0 <= i < |rs| ==> rs[i].WithdrawalRequest?
    ensures Run(accounts, rs, today).accounts[id].amount >= 0
    decreases |rs|
  {
    if rs != [] {
      var s := Apply(accounts, rs[0], today);
      assert s.accounts[id].amount >= 0;
      WithdrawalsKeepBalance(s.accounts, rs[1..], today, id);
    }
  }
}
