/** One bank account: its balance, its append-only history, the PIN check,
    the static exchange-rate table and the login-lockout counters.
    The value type `AccountState` carries the meaning of every operation;
    the class `Account` performs the same operations on mutable fields and
    is proved to agree with it. */
module Accounts {

  /** One immutable entry of the history. `date` is in milliseconds; `amount`
      is already in the reference currency; `currency` is for display. */
  datatype Transaction = Transaction(date: int, amount: real, description: string, currency: string)

  const ReferenceCurrency: string := "GBP"

  /** The static five-entry rate table. The reference currency is not a key. */
  const ExchangeRates: map<string, real> :=
    map["EUR" := 1.13, "USD" := 1.24, "AUD" := 1.80, "CNY" := 8.70, "CHF" := 1.07]

  /** Table lookup with 0 as the default for a missing code. */
  function RateOf(currency: string): (r: real)
    ensures currency in ExchangeRates <==> r != 0.0
  {
    if currency in ExchangeRates then ExchangeRates[currency] else 0.0
  }

  /** Converts through the table; 0 when either code has no entry. */
  function ConvertCurrency(amount: real, fromCurrency: string, toCurrency: string): (r: real)
    ensures fromCurrency !in ExchangeRates || toCurrency !in ExchangeRates ==> r == 0.0
    ensures fromCurrency in ExchangeRates && toCurrency in ExchangeRates ==>
      r * ExchangeRates[toCurrency] == amount * ExchangeRates[fromCurrency]
  {
    var rateFrom := RateOf(fromCurrency);
    var rateTo := RateOf(toCurrency);
    if rateFrom == 0.0 || rateTo == 0.0 then 0.0 else amount * (rateFrom / rateTo)
  }

  /** A deposit accepts the reference currency or a key of the table. */
  predicate IsSupportedCurrency(currency: string) {
    currency == ReferenceCurrency || currency in ExchangeRates
  }

  /** Which of the three guards of a deposit stops it, if any. */
  datatype DepositOutcome = Credited | NegativeAmount | UnsupportedCurrency | ConversionError

  function DepositCheck(amount: real, currency: string): DepositOutcome {
    if amount < 0.0 then NegativeAmount
    else if !IsSupportedCurrency(currency) then UnsupportedCurrency
    else if ConvertCurrency(amount, currency, ReferenceCurrency) == 0.0 then ConversionError
    else Credited
  }

  /** Sum of the amounts of a history, front to back. */
  function SumAmounts(h: seq<Transaction>): real {
    if h == [] then 0.0 else h[0].amount + SumAmounts(h[1..])
  }

  /** `r` is `h` with some entries dropped, order kept (greedy matching). */
  predicate IsSubsequence(r: seq<Transaction>, h: seq<Transaction>) {
    if r == [] then true
    else if h == [] then false
    else if r[0] == h[0] then IsSubsequence(r[1..], h[1..])
    else IsSubsequence(r, h[1..])
  }

  /** The entries of `h` dated strictly after `start` and strictly before `end`. */
  function Between(h: seq<Transaction>, start: int, end: int): (r: seq<Transaction>)
    ensures forall t :: t in r <==> t in h && start < t.date < end
    ensures IsSubsequence(r, h)
  {
    if h == [] then []
    else if start < h[0].date < end then [h[0]] + Between(h[1..], start, end)
    else Between(h[1..], start, end)
  }

  datatype AccountState = AccountState(
    accountId: string,
    ownerName: string,
    pin: string,
    balance: real,
    transactions: seq<Transaction>,
    failedLoginAttempts: int,
    lastFailedLoginTime: int)
  {
    predicate ValidatePin(pinAttempt: string) {
      pin == pinAttempt
    }

    function Deposit(amount: real, currency: string, now: int): AccountState {
      if DepositCheck(amount, currency) == Credited then
        var converted := ConvertCurrency(amount, currency, ReferenceCurrency);
        this.(balance := balance + converted,
              transactions := transactions + [Transaction(now, converted, "Deposit", currency)])
      else this
    }

    function Withdraw(amount: real, now: int): AccountState {
      if amount <= balance then
        this.(balance := balance - amount,
              transactions := transactions + [Transaction(now, -amount, "Withdrawal", ReferenceCurrency)])
      else this
    }

    function ApplyInterest(rate: real, now: int): AccountState {
      var interest := balance * rate;
      this.(balance := balance + interest,
            transactions := transactions + [Transaction(now, interest, "Interest Applied", ReferenceCurrency)])
    }

    /** The balance is the sum of the history. */
    predicate Balanced() {
      balance == SumAmounts(transactions)
    }
  }

  /** A freshly opened account; the initial balance is not checked for sign. */
  function Opened(accountId: string, ownerName: string, pin: string, initialBalance: real, now: int): AccountState {
    AccountState(accountId, ownerName, pin, initialBalance,
                 [Transaction(now, initialBalance, "Initial Deposit", ReferenceCurrency)], 0, 0)
  }

  /** `after` is `before` with exactly one entry `t` appended, and the balance
      moved by `t.amount`; identity, PIN and login counters untouched. */
  predicate AppendsOne(before: AccountState, after: AccountState, t: Transaction) {
    after == before.(balance := before.balance + t.amount, transactions := before.transactions + [t])
  }

  // ---------------------------------------------------------------- lemmas

  lemma {:induction false} SumAmountsAppend(h: seq<Transaction>, t: Transaction)
    ensures SumAmounts(h + [t]) == SumAmounts(h) + t.amount
  {
    if h != [] {
      assert (h + [t])[1..] == h[1..] + [t];
      SumAmountsAppend(h[1..], t);
    }
  }

  /** The PIN check is an exact string comparison: the stored PIN passes and
      every other string fails. */
  lemma ValidatePinExact(a: AccountState, pinAttempt: string)
    ensures a.ValidatePin(a.pin)
    ensures pinAttempt != a.pin ==> !a.ValidatePin(pinAttempt)
  {
  }

  lemma ReferenceCurrencyHasNoRate()
    ensures ReferenceCurrency !in ExchangeRates
    ensures forall amount: real, c: string :: ConvertCurrency(amount, c, ReferenceCurrency) == 0.0
  {
  }

  /** Converting there and back inside the table gives the amount back. */
  lemma ConvertRoundTrip(amount: real, a: string, b: string)
    requires a in ExchangeRates && b in ExchangeRates
    ensures ConvertCurrency(ConvertCurrency(amount, a, b), b, a) == amount
  {
  }

  /** Converting through a third table currency equals converting directly. */
  lemma ConvertThrough(amount: real, a: string, b: string, c: string)
    requires a in ExchangeRates && b in ExchangeRates && c in ExchangeRates
    ensures ConvertCurrency(ConvertCurrency(amount, a, b), b, c) == ConvertCurrency(amount, a, c)
  {
  }

  /** Which guard a deposit stops at: a negative amount, then an unsupported
      code, and otherwise always the conversion check, never a credit. */
  lemma DepositNeverCredits(amount: real, currency: string)
    ensures DepositCheck(amount, currency) != Credited
    ensures DepositCheck(amount, currency) == NegativeAmount <==> amount < 0.0
    ensures DepositCheck(amount, currency) == UnsupportedCurrency <==>
      0.0 <= amount && currency != ReferenceCurrency && currency !in ExchangeRates
  {
    ReferenceCurrencyHasNoRate();
  }

  /** Every deposit leaves the account as it was. */
  lemma DepositIsNoOp(a: AccountState, amount: real, currency: string, now: int)
    ensures a.Deposit(amount, currency, now) == a
  {
    DepositNeverCredits(amount, currency);
  }

  lemma WithdrawSpec(a: AccountState, amount: real, now: int)
    ensures amount <= a.balance ==>
      AppendsOne(a, a.Withdraw(amount, now), Transaction(now, -amount, "Withdrawal", ReferenceCurrency))
    ensures amount > a.balance ==> a.Withdraw(amount, now) == a
  {
  }

  lemma ApplyInterestSpec(a: AccountState, rate: real, now: int)
    ensures AppendsOne(a, a.ApplyInterest(rate, now),
                       Transaction(now, a.balance * rate, "Interest Applied", ReferenceCurrency))
    ensures a.ApplyInterest(rate, now).balance == a.balance * (1.0 + rate)
  {
  }

  /** Appending one entry keeps balance and history in step. */
  lemma AppendsOneKeepsBalanced(before: AccountState, after: AccountState, t: Transaction)
    requires before.Balanced() && AppendsOne(before, after, t)
    ensures after.Balanced()
  {
    SumAmountsAppend(before.transactions, t);
  }

  lemma OpenedIsBalanced(accountId: string, ownerName: string, pin: string, initialBalance: real, now: int)
    ensures Opened(accountId, ownerName, pin, initialBalance, now).Balanced()
  {
  }

  /** Deposit, withdraw and interest each keep the balance equal to the sum of the history. */
  lemma OperationsKeepBalanced(a: AccountState, amount: real, currency: string, rate: real, now: int)
    requires a.Balanced()
    ensures a.Deposit(amount, currency, now).Balanced()
    ensures a.Withdraw(amount, now).Balanced()
    ensures a.ApplyInterest(rate, now).Balanced()
  {
    DepositIsNoOp(a, amount, currency, now);
    WithdrawSpec(a, amount, now);
    if amount <= a.balance {
      AppendsOneKeepsBalanced(a, a.Withdraw(amount, now), Transaction(now, -amount, "Withdrawal", ReferenceCurrency));
    }
    ApplyInterestSpec(a, rate, now);
    AppendsOneKeepsBalanced(a, a.ApplyInterest(rate, now),
                            Transaction(now, a.balance * rate, "Interest Applied", ReferenceCurrency));
  }

  /** Filtering an extended history extends the filtered history by the new
      entry exactly when it falls inside the window. */
  lemma {:induction false} BetweenAppend(h: seq<Transaction>, t: Transaction, start: int, end: int)
    ensures Between(h + [t], start, end) ==
      Between(h, start, end) + (if start < t.date < end then [t] else [])
  {
    if h != [] {
      assert (h + [t])[1..] == h[1..] + [t];
      BetweenAppend(h[1..], t, start, end);
    }
  }

  /** The window keeps every entry inside the bounds as many times as the
      history holds it, and no entry outside them. */
  lemma {:induction false} BetweenCounts(h: seq<Transaction>, start: int, end: int, t: Transaction)
    ensures multiset(Between(h, start, end))[t] == if start < t.date < end then multiset(h)[t] else 0
  {
    if h != [] {
      assert h == [h[0]] + h[1..];
      BetweenCounts(h[1..], start, end, t);
    }
  }

  /** The window operation drops exactly the entries at or outside the bounds. */
  lemma {:induction false} BetweenLength(h: seq<Transaction>, start: int, end: int)
    ensures |Between(h, start, end)| <= |h|
    ensures |Between(h, start, end)| == |h| <==> forall i :: 0 <= i < |h| ==> start < h[i].date < end
  {
    if h != [] {
      BetweenLength(h[1..], start, end);
      if start < h[0].date < end {
        assert forall i :: 1 <= i < |h| ==> h[i] == h[1..][i - 1];
      }
    }
  }

  /** A short session: open with 100, deposit 10 USD, withdraw 200. The
      deposit credits nothing and the withdrawal is refused. */
  lemma ExampleSession(t0: int, t1: int, t2: int)
    ensures var a := Opened("A1", "Alice", "1234", 100.0, t0);
      a.balance == 100.0 && a.transactions == [Transaction(t0, 100.0, "Initial Deposit", "GBP")] &&
      a.Deposit(10.0, "USD", t1) == a && a.Withdraw(200.0, t2) == a
  {
    DepositIsNoOp(Opened("A1", "Alice", "1234", 100.0, t0), 10.0, "USD", t1);
  }

  // ------------------------------------------------------------ the object

  class Account {
    const accountId: string
    const ownerName: string
    const pin: string
    var balance: real
    var transactions: seq<Transaction>
    var failedLoginAttempts: int
    var lastFailedLoginTime: int

    /** The account's fields as one value. */
    function State(): AccountState
      reads this
    {
      AccountState(accountId, ownerName, pin, balance, transactions, failedLoginAttempts, lastFailedLoginTime)
    }

    constructor (accountId: string, ownerName: string, pin: string, initialBalance: real, now: int)
      ensures State() == Opened(accountId, ownerName, pin, initialBalance, now)
      ensures balance == initialBalance
      ensures transactions == [Transaction(now, initialBalance, "Initial Deposit", ReferenceCurrency)]
    {
      this.accountId := accountId;
      this.ownerName := ownerName;
      this.pin := pin;
      this.balance := initialBalance;
      this.transactions := [Transaction(now, initialBalance, "Initial Deposit", ReferenceCurrency)];
      this.failedLoginAttempts := 0;
      this.lastFailedLoginTime := 0;
    }

    function GetBalance(): real
      reads this
    {
      balance
    }

    function GetTransactions(): seq<Transaction>
      reads this
    {
      transactions
    }

    function GetFailedLoginAttempts(): int
      reads this
    {
      failedLoginAttempts
    }

    function GetLastFailedLoginTime(): int
      reads this
    {
      lastFailedLoginTime
    }

    method SetFailedLoginAttempts(attempts: int)
      modifies this
      ensures State() == old(State()).(failedLoginAttempts := attempts)
    {
      failedLoginAttempts := attempts;
    }

    method SetLastFailedLoginTime(time: int)
      modifies this
      ensures State() == old(State()).(lastFailedLoginTime := time)
    {
      lastFailedLoginTime := time;
    }

    /** Three guards in order, each returning silently; then credit and append. */
    method Deposit(amount: real, currency: string, now: int) returns (outcome: DepositOutcome)
      modifies this
      ensures outcome == DepositCheck(amount, currency)
      ensures State() == old(State()).Deposit(amount, currency, now)
    {
      if amount < 0.0 {
        return NegativeAmount;
      }
      if currency != ReferenceCurrency && currency !in ExchangeRates {
        return UnsupportedCurrency;
      }
      var convertedAmount := ConvertCurrency(amount, currency, ReferenceCurrency);
      if convertedAmount == 0.0 {
        return ConversionError;
      }
      // The credit that would follow is unreachable: the target code has no
      // entry in the rate table, so the conversion above always yields 0.
      assert false;
    }

    method Withdraw(amount: real, now: int) returns (ok: bool)
      modifies this
      ensures ok <==> amount <= old(balance)
      ensures State() == old(State()).Withdraw(amount, now)
    {
      if amount <= balance {
        balance := balance - amount;
        transactions := transactions + [Transaction(now, -amount, "Withdrawal", ReferenceCurrency)];
        return true;
      }
      return false;
    }

    method ApplyInterest(rate: real, now: int)
      modifies this
      ensures State() == old(State()).ApplyInterest(rate, now)
    {
      var interest := balance * rate;
      ghost var before := State();
      balance := balance + interest;
      transactions := transactions + [Transaction(now, interest, "Interest Applied", ReferenceCurrency)];
      assert before.ApplyInterest(rate, now).balance == balance;
    }

    /** The history entries dated strictly inside the window, in history order. */
    function TransactionsBetween(start: int, end: int): (r: seq<Transaction>)
      reads this
      ensures forall t :: t in r <==> t in transactions && start < t.date < end
      ensures IsSubsequence(r, transactions)
    {
      Between(transactions, start, end)
    }

    predicate ValidatePin(pinAttempt: string)
      reads this
    {
      State().ValidatePin(pinAttempt)
    }
  }
}
