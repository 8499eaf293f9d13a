/** The bank: accounts keyed by id, the login lockout state machine,
    account creation, transfers, per-id deposits and bulk interest.
    Each operation has a value-level meaning over the account map
    (`LoginStep`, `CreateStep`, …) that `Bank`'s methods are proved to follow. */
module Ledger {
  import opened Accounts

  datatype Option<T> = None | Some(value: T)

  type AccountMap = map<string, AccountState>

  /** Three failures lock an account for a window measured from the last one. */
  const MaxFailedAttempts: int := 3
  const LockoutMillis: int := 60000

  predicate IsLocked(a: AccountState, now: int) {
    a.failedLoginAttempts >= MaxFailedAttempts && now - a.lastFailedLoginTime < LockoutMillis
  }

  /** One login attempt on an account that exists: whether it succeeds and the
      account after it. Only the two lockout counters can change. */
  function Attempt(a: AccountState, pinAttempt: string, now: int): (r: (bool, AccountState))
    ensures r.0 <==> !IsLocked(a, now) && pinAttempt == a.pin
    ensures r.1.(failedLoginAttempts := a.failedLoginAttempts, lastFailedLoginTime := a.lastFailedLoginTime) == a
    ensures IsLocked(a, now) ==> r.1 == a
    ensures r.0 ==> r.1.failedLoginAttempts == 0 && r.1.lastFailedLoginTime == a.lastFailedLoginTime
    ensures !r.0 && !IsLocked(a, now) ==>
      r.1.failedLoginAttempts == a.failedLoginAttempts + 1 && r.1.lastFailedLoginTime == now
  {
    if IsLocked(a, now) then (false, a)
    else if a.ValidatePin(pinAttempt) then (true, a.(failedLoginAttempts := 0))
    else (false, a.(failedLoginAttempts := a.failedLoginAttempts + 1, lastFailedLoginTime := now))
  }

  function LoginStep(m: AccountMap, id: string, pinAttempt: string, now: int): (bool, AccountMap) {
    if id !in m then (false, m)
    else
      var (ok, a) := Attempt(m[id], pinAttempt, now);
      (ok, m[id := a])
  }

  function CreateStep(m: AccountMap, id: string, ownerName: string, pin: string, initialBalance: real, now: int): AccountMap {
    if id in m then m else m[id := Opened(id, ownerName, pin, initialBalance, now)]
  }

  /** Withdraw from the source, then deposit the same amount in the reference
      currency into the destination as it is after the withdrawal. */
  function TransferStep(m: AccountMap, fromId: string, toId: string, amount: real, now: int): (bool, AccountMap) {
    if fromId in m && toId in m && amount <= m[fromId].balance then
      var m1 := m[fromId := m[fromId].Withdraw(amount, now)];
      (true, m1[toId := m1[toId].Deposit(amount, ReferenceCurrency, now)])
    else (false, m)
  }

  function DepositStep(m: AccountMap, id: string, amount: real, currency: string, now: int): AccountMap {
    if id in m then m[id := m[id].Deposit(amount, currency, now)] else m
  }

  function InterestStep(m: AccountMap, rate: real, now: int): AccountMap {
    map id | id in m :: m[id].ApplyInterest(rate, now)
  }

  /** Every stored account sits under its own id. */
  predicate KeysMatch(m: AccountMap) {
    forall id :: id in m ==> m[id].accountId == id
  }

  predicate AllBalanced(m: AccountMap) {
    forall id :: id in m ==> m[id].Balanced()
  }

  /** The money held by the bank. */
  ghost function TotalBalance(m: AccountMap): real
    decreases |m|
  {
    if m == map[] then 0.0
    else
      var id :| id in m;
      m[id].balance + TotalBalance(m - {id})
  }

  // ---------------------------------------------------------------- lemmas

  lemma MapRemoveSize(m: AccountMap, id: string)
    requires id in m
    ensures |m - {id}| == |m| - 1
  {
    assert (m - {id}).Keys == m.Keys - {id};
  }

  /** The total does not depend on which key the definition picks first. */
  lemma {:induction false} TotalBalanceRemove(m: AccountMap, id: string)
    requires id in m
    ensures TotalBalance(m) == m[id].balance + TotalBalance(m - {id})
    decreases |m|
  {
    var j :| j in m && TotalBalance(m) == m[j].balance + TotalBalance(m - {j});
    if j != id {
      MapRemoveSize(m, j);
      MapRemoveSize(m, id);
      TotalBalanceRemove(m - {j}, id);
      TotalBalanceRemove(m - {id}, j);
      assert m - {j} - {id} == m - {id} - {j};
    }
  }

  /** Replacing one account moves the total by the change of its balance. */
  lemma TotalBalanceUpdate(m: AccountMap, id: string, a: AccountState)
    requires id in m
    ensures TotalBalance(m[id := a]) == TotalBalance(m) - m[id].balance + a.balance
  {
    TotalBalanceRemove(m, id);
    TotalBalanceRemove(m[id := a], id);
    assert m[id := a] - {id} == m - {id};
  }

  /** Login on an unknown id fails and changes nothing. */
  lemma LoginUnknownId(m: AccountMap, id: string, pinAttempt: string, now: int)
    requires id !in m
    ensures LoginStep(m, id, pinAttempt, now) == (false, m)
  {
  }

  /** While locked, login fails without looking at the PIN and changes nothing. */
  lemma LoginWhileLocked(m: AccountMap, id: string, pinAttempt: string, now: int)
    requires id in m && IsLocked(m[id], now)
    ensures LoginStep(m, id, pinAttempt, now) == (false, m)
  {
    assert m[id := m[id]] == m;
  }

  /** Unlocked with the right PIN: success, the counter is cleared and the
      time of the last failure is kept. */
  lemma LoginCorrectPin(m: AccountMap, id: string, now: int)
    requires id in m && !IsLocked(m[id], now)
    ensures LoginStep(m, id, m[id].pin, now) == (true, m[id := m[id].(failedLoginAttempts := 0)])
  {
  }

  /** Unlocked with a wrong PIN: failure, one more failed attempt, stamped now. */
  lemma LoginWrongPin(m: AccountMap, id: string, pinAttempt: string, now: int)
    requires id in m && !IsLocked(m[id], now) && pinAttempt != m[id].pin
    ensures LoginStep(m, id, pinAttempt, now) ==
      (false, m[id := m[id].(failedLoginAttempts := m[id].failedLoginAttempts + 1, lastFailedLoginTime := now)])
  {
  }

  /** Login succeeds exactly when the id exists, the account is not locked
      and the attempt is the stored PIN. */
  lemma LoginSucceedsIff(m: AccountMap, id: string, pinAttempt: string, now: int)
    ensures LoginStep(m, id, pinAttempt, now).0 <==>
      id in m && !IsLocked(m[id], now) && pinAttempt == m[id].pin
  {
  }

  /** Login touches only the lockout counters of the one account. */
  lemma LoginKeepsMoney(m: AccountMap, id: string, pinAttempt: string, now: int)
    ensures LoginStep(m, id, pinAttempt, now).1.Keys == m.Keys
    ensures forall k :: k in m ==>
      var a := LoginStep(m, id, pinAttempt, now).1[k];
      a.balance == m[k].balance && a.transactions == m[k].transactions && a.pin == m[k].pin
    ensures forall k :: k in m && k != id ==> LoginStep(m, id, pinAttempt, now).1[k] == m[k]
  {
  }

  /** Three wrong PINs from a clean account lock it: within the window any PIN,
      the right one included, is refused; once the window has passed the right
      PIN is accepted and the counter goes back to 0. */
  lemma LockoutScenario(a: AccountState, wrong1: string, wrong2: string, wrong3: string,
                        t1: int, t2: int, t3: int, anyPin: string, t: int, later: int)
    requires a.failedLoginAttempts == 0
    requires wrong1 != a.pin && wrong2 != a.pin && wrong3 != a.pin
    requires t < t3 + LockoutMillis <= later
    ensures var (ok1, a1) := Attempt(a, wrong1, t1);
            var (ok2, a2) := Attempt(a1, wrong2, t2);
            var (ok3, a3) := Attempt(a2, wrong3, t3);
            !ok1 && !ok2 && !ok3 && a3.failedLoginAttempts == 3 && a3.lastFailedLoginTime == t3 &&
            Attempt(a3, anyPin, t) == (false, a3) &&
            Attempt(a3, a.pin, later) == (true, a3.(failedLoginAttempts := 0))
  {
    var (ok1, a1) := Attempt(a, wrong1, t1);
    assert a1 == a.(failedLoginAttempts := 1, lastFailedLoginTime := t1);
    var (ok2, a2) := Attempt(a1, wrong2, t2);
    assert a2 == a.(failedLoginAttempts := 2, lastFailedLoginTime := t2);
    var (ok3, a3) := Attempt(a2, wrong3, t3);
    assert a3 == a.(failedLoginAttempts := 3, lastFailedLoginTime := t3);
    assert IsLocked(a3, t) && !IsLocked(a3, later);
  }

  /** Creating an account refuses a taken id; otherwise it adds exactly that key. */
  lemma CreateSpec(m: AccountMap, id: string, ownerName: string, pin: string, initialBalance: real, now: int)
    ensures id in m ==> CreateStep(m, id, ownerName, pin, initialBalance, now) == m
    ensures id !in m ==>
      var r := CreateStep(m, id, ownerName, pin, initialBalance, now);
      r.Keys == m.Keys + {id} && r[id] == Opened(id, ownerName, pin, initialBalance, now) &&
      forall k :: k in m ==> r[k] == m[k]
  {
  }

  /** A transfer succeeds exactly when both ids exist and the source can pay;
      on success only the source changes — it is debited as by a withdrawal,
      while the deposit into the destination changes nothing — even when the
      two ids are the same. */
  lemma TransferSpec(m: AccountMap, fromId: string, toId: string, amount: real, now: int)
    ensures TransferStep(m, fromId, toId, amount, now).0 <==>
      fromId in m && toId in m && amount <= m[fromId].balance
    ensures !TransferStep(m, fromId, toId, amount, now).0 ==> TransferStep(m, fromId, toId, amount, now).1 == m
    ensures TransferStep(m, fromId, toId, amount, now).0 ==>
      TransferStep(m, fromId, toId, amount, now).1 == m[fromId := m[fromId].Withdraw(amount, now)]
  {
    if fromId in m && toId in m && amount <= m[fromId].balance {
      var m1 := m[fromId := m[fromId].Withdraw(amount, now)];
      DepositIsNoOp(m1[toId], amount, ReferenceCurrency, now);
      assert m1[toId := m1[toId]] == m1;
    }
  }

  /** A successful transfer takes `amount` out of the bank; a failed one takes nothing. */
  lemma TransferTotal(m: AccountMap, fromId: string, toId: string, amount: real, now: int)
    ensures var (ok, r) := TransferStep(m, fromId, toId, amount, now);
      TotalBalance(r) == if ok then TotalBalance(m) - amount else TotalBalance(m)
  {
    TransferSpec(m, fromId, toId, amount, now);
    if TransferStep(m, fromId, toId, amount, now).0 {
      TotalBalanceUpdate(m, fromId, m[fromId].Withdraw(amount, now));
    }
  }

  /** A deposit by id never changes the bank, found or not. */
  lemma DepositStepIsNoOp(m: AccountMap, id: string, amount: real, currency: string, now: int)
    ensures DepositStep(m, id, amount, currency, now) == m
  {
    if id in m {
      DepositIsNoOp(m[id], amount, currency, now);
      assert m[id := m[id]] == m;
    }
  }

  /** Bulk interest keeps the ids and sends each account to its own interest result. */
  lemma InterestSpec(m: AccountMap, rate: real, now: int)
    ensures InterestStep(m, rate, now).Keys == m.Keys
    ensures forall id :: id in m ==> InterestStep(m, rate, now)[id] == m[id].ApplyInterest(rate, now)
    ensures forall id :: id in m ==> |InterestStep(m, rate, now)[id].transactions| == |m[id].transactions| + 1
  {
  }

  /** `x` scaled by `f`: a proof aid for `TotalBalanceScaled`. Naming the
      product lets equal arguments give equal results without nonlinear
      arithmetic reasoning. */
  function Scale(x: real, f: real): real {
    x * f
  }

  /** Scaling distributes over the one addition `TotalBalanceScaled` needs. */
  lemma Distribute(b: real, t: real, total: real, f: real)
    requires total == b + t
    ensures Scale(b, f) + Scale(t, f) == Scale(total, f)
  {
  }

  /** Scaling every balance by one factor scales the total by it. */
  lemma {:induction false} TotalBalanceScaled(m: AccountMap, r: AccountMap, f: real)
    requires r.Keys == m.Keys
    requires forall id :: id in m ==> r[id].balance == Scale(m[id].balance, f)
    ensures TotalBalance(r) == Scale(TotalBalance(m), f)
    decreases |m|
  {
    if m == map[] {
      assert r == map[];
      assert TotalBalance(r) == 0.0 && TotalBalance(m) == 0.0;
    } else {
      var id :| id in m;
      assert (r - {id}).Keys == (m - {id}).Keys;
      TotalBalanceRemove(m, id);
      TotalBalanceRemove(r, id);
      MapRemoveSize(m, id);
      TotalBalanceScaled(m - {id}, r - {id}, f);
      Distribute(m[id].balance, TotalBalance(m - {id}), TotalBalance(m), f);
    }
  }

  /** Bulk interest scales the bank's total by `1 + rate`. */
  lemma InterestTotal(m: AccountMap, rate: real, now: int)
    ensures TotalBalance(InterestStep(m, rate, now)) == TotalBalance(m) * (1.0 + rate)
  {
    var r := InterestStep(m, rate, now);
    forall id | id in m
      ensures r[id].balance == Scale(m[id].balance, 1.0 + rate)
    {
      ApplyInterestSpec(m[id], rate, now);
    }
    assert r.Keys == m.Keys;
    TotalBalanceScaled(m, r, 1.0 + rate);
    assert Scale(TotalBalance(m), 1.0 + rate) == TotalBalance(m) * (1.0 + rate);
  }

  /** Every operation stores accounts under their own ids and keeps each
      balance equal to the sum of its history. */
  lemma StepsKeepInvariants(m: AccountMap, id: string, toId: string, ownerName: string, pin: string,
                            amount: real, currency: string, rate: real, now: int)
    requires KeysMatch(m) && AllBalanced(m)
    ensures var r := LoginStep(m, id, pin, now).1; KeysMatch(r) && AllBalanced(r)
    ensures var r := CreateStep(m, id, ownerName, pin, amount, now); KeysMatch(r) && AllBalanced(r)
    ensures var r := TransferStep(m, id, toId, amount, now).1; KeysMatch(r) && AllBalanced(r)
    ensures var r := DepositStep(m, id, amount, currency, now); KeysMatch(r) && AllBalanced(r)
    ensures var r := InterestStep(m, rate, now); KeysMatch(r) && AllBalanced(r)
  {
    LoginKeepsMoney(m, id, pin, now);
    OpenedIsBalanced(id, ownerName, pin, amount, now);
    TransferSpec(m, id, toId, amount, now);
    if id in m {
      OperationsKeepBalanced(m[id], amount, currency, rate, now);
    }
    DepositStepIsNoOp(m, id, amount, currency, now);
    forall k | k in m
      ensures m[k].ApplyInterest(rate, now).Balanced()
    {
      OperationsKeepBalanced(m[k], amount, currency, rate, now);
    }
  }

  // ------------------------------------------------------------ the object

  class Bank {
    var accounts: AccountMap

    constructor ()
      ensures accounts == map[]
    {
      accounts := map[];
    }

    method Login(accountId: string, pinAttempt: string, now: int) returns (ok: bool)
      modifies this
      ensures (ok, accounts) == LoginStep(old(accounts), accountId, pinAttempt, now)
    {
      if accountId !in accounts {
        return false;
      }
      var account := accounts[accountId];
      if account.failedLoginAttempts >= MaxFailedAttempts && now - account.lastFailedLoginTime < LockoutMillis {
        assert accounts[accountId := account] == accounts;
        return false;
      }
      if account.ValidatePin(pinAttempt) {
        accounts := accounts[accountId := account.(failedLoginAttempts := 0)];
        return true;
      } else {
        account := account.(failedLoginAttempts := account.failedLoginAttempts + 1);
        account := account.(lastFailedLoginTime := now);
        accounts := accounts[accountId := account];
        return false;
      }
    }

    method CreateAccount(accountId: string, ownerName: string, pin: string, initialBalance: real, now: int)
      modifies this
      ensures accounts == CreateStep(old(accounts), accountId, ownerName, pin, initialBalance, now)
      ensures GetAccount(accountId).Some?
      ensures accountId !in old(accounts) ==>
        GetAccount(accountId) == Some(Opened(accountId, ownerName, pin, initialBalance, now))
    {
      if accountId !in accounts {
        accounts := accounts[accountId := Opened(accountId, ownerName, pin, initialBalance, now)];
      }
    }

    /** The stored account, or `None` when the id is not a key. */
    function GetAccount(accountId: string): (r: Option<AccountState>)
      reads this
      ensures r.Some? <==> accountId in accounts
      ensures r.Some? ==> r.value == accounts[accountId]
    {
      if accountId in accounts then Some(accounts[accountId]) else None
    }

    method Transfer(fromId: string, toId: string, amount: real, now: int) returns (ok: bool)
      modifies this
      ensures (ok, accounts) == TransferStep(old(accounts), fromId, toId, amount, now)
    {
      if fromId in accounts && toId in accounts && amount <= accounts[fromId].balance {
        accounts := accounts[fromId := accounts[fromId].Withdraw(amount, now)];
        accounts := accounts[toId := accounts[toId].Deposit(amount, ReferenceCurrency, now)];
        return true;
      }
      return false;
    }

    method Deposit(accountId: string, amount: real, currency: string, now: int)
      modifies this
      ensures accounts == DepositStep(old(accounts), accountId, amount, currency, now)
    {
      if accountId in accounts {
        accounts := accounts[accountId := accounts[accountId].Deposit(amount, currency, now)];
      }
    }

    method DepositToAccount(accountId: string, amount: real, currency: string, now: int) returns (found: bool)
      modifies this
      ensures found <==> accountId in old(accounts)
      ensures accounts == DepositStep(old(accounts), accountId, amount, currency, now)
    {
      found := accountId in accounts;
      if found {
        accounts := accounts[accountId := accounts[accountId].Deposit(amount, currency, now)];
      }
    }

    /** Visits the ids in an arbitrary order, applying interest to each once. */
    method ApplyInterestToAllAccounts(rate: real, now: int)
      modifies this
      ensures accounts == InterestStep(old(accounts), rate, now)
    {
      ghost var start := accounts;
      var remaining := accounts.Keys;
      while remaining != {}
        invariant remaining <= start.Keys
        invariant accounts.Keys == start.Keys
        invariant forall id :: id in start && id !in remaining ==> accounts[id] == start[id].ApplyInterest(rate, now)
        invariant forall id :: id in remaining ==> accounts[id] == start[id]
        decreases remaining
      {
        var id :| id in remaining;
        accounts := accounts[id := accounts[id].ApplyInterest(rate, now)];
        remaining := remaining - {id};
      }
    }
  }
}
