# Bank ledger: accounts, lockout, transfers

A Dafny model of the domain core of a small single-user bank ledger. The core is made of two parts.

- **Account** (`src/Account.java`). An account has a balance and an append-only transaction history. It has a PIN check and login-lockout counters. It also uses a static five-entry exchange-rate table. Its operations are deposit (three guards, then credit and append), withdraw, apply interest, currency conversion and a date-window filter over the history. `src/BankApp.java:14-91` holds a second copy of the class with the same operations. That copy has `final` fields and no getters or setters for the lockout counters. The model has one `Account`, which stands for both copies.
- **Bank** (`src/BankApp.java:116-214`). The bank maps account ids to accounts. It runs the login lockout: three failures, then a 60 000 ms window measured from the last failure. It also does account creation (a taken id is refused), transfer (withdraw, then deposit), deposit by id and bulk interest.

Module `Accounts` models `src/Account.java`:

- `Transaction` is a value.
- `AccountState` is an account's fields as a value. Its member functions give the meaning of each operation.
- `class Account` updates the same fields step by step. Each of its methods is proved to end in the state the matching function gives.

Module `Ledger` models class `Bank`:

- Functions over the account map (`LoginStep`, `CreateStep`, `TransferStep`, `DepositStep`, `InterestStep`) give the meaning of each operation.
- `class Bank` holds the map as a field, and its methods are proved against those functions.
- `ApplyInterestToAllAccounts` is a loop that visits the ids in an arbitrary order.

Modelling choices:

- Amounts are `real`. The rates are the exact decimals of the table.
- Timestamps are `int` milliseconds. They are passed in as `now` wherever the code reads the clock.
- Each `Account.Deposit` returns a `DepositOutcome`, which names the guard that stopped it. `Bank.DepositToAccount` returns whether the id was found. In the source these are printed diagnostics, not return values.

## What the code does, as written

The rate table has no entry for `"GBP"` (`src/Account.java:14-15`). `convertCurrency` returns 0 when either code has no entry (`src/Account.java:65-69`). A deposit always converts *to* `"GBP"` and gives up when the result is 0 (`src/Account.java:56-60`). So no deposit ever changes an account: `DepositIsNoOp` proves it for every amount and currency. `Account.Deposit` marks the credit branch as unreachable, and the verifier checks that.

Two more consequences follow:

- A successful `transfer` debits the source, but its deposit into the destination changes nothing. The bank's total therefore falls by the transferred amount (`TransferSpec`, `TransferTotal`).
- Opening an account with 100 and then depositing 10 USD leaves the balance at 100 (`ExampleSession`).

A reader might expect GBP to have an implicit rate of 1.0. Then the formula would convert 10 USD to 10 × 1.24 / 1.0 = 12.4 GBP, that deposit would give 112.4, and a transfer would credit the destination. The model keeps the code's behaviour instead.

## Model

| member | source | states |
|---|---|---|
| `Accounts.RateOf` | src/Account.java:66-67 | a code's looked-up rate is non-zero exactly when the code is a key of the table (0 is the lookup default) |
| `Accounts.ConvertCurrency` | src/Account.java:65-70 | the result is 0 when either code is not a key; otherwise result × rate(to) = amount × rate(from) |
| `Accounts.ReferenceCurrencyHasNoRate` | src/Account.java:14-15 | "GBP" is not a key of the table, so every conversion to "GBP" gives 0 |
| `Accounts.ConvertRoundTrip` | src/Account.java:65-70 | within the table, converting A→B and then B→A returns the original amount |
| `Accounts.ConvertThrough` | src/Account.java:65-70 | within the table, converting A→B→C equals converting A→C directly |
| `Accounts.DepositNeverCredits` | src/Account.java:47-60 | a deposit is stopped by the negative-amount guard exactly when amount < 0; by the currency guard exactly when the amount is non-negative and the code is neither "GBP" nor a key; otherwise always by the conversion guard; it is never credited |
| `Accounts.DepositIsNoOp` | src/Account.java:47-63 | every deposit leaves balance, history, PIN and counters unchanged |
| `Accounts.WithdrawSpec` | src/Account.java:85-92 | when amount ≤ balance, the balance drops by exactly amount and exactly one (now, −amount, "Withdrawal", "GBP") entry is appended, with nothing else changed; otherwise nothing changes |
| `Accounts.ApplyInterestSpec` | src/Account.java:78-82 | for any rate, exactly one (now, balance×rate, "Interest Applied", "GBP") entry is appended and the balance becomes old balance × (1 + rate) |
| `Accounts.ValidatePinExact` | src/Account.java:98-100 | the PIN check accepts the stored PIN and rejects every other string |
| `Accounts.OpenedIsBalanced` | src/Account.java:35-42 | a new account's balance equals the sum of its one-entry history |
| `Accounts.OperationsKeepBalanced` | src/Account.java:47-92 | deposit, withdraw and interest each keep the balance equal to the sum of the history |
| `Accounts.Between` | src/Account.java:72-76 | an entry is in the window exactly when it is in the history with start < date < end (both bounds excluded); the window is a subsequence of the history, so order is kept |
| `Accounts.BetweenCounts` | src/Account.java:72-76 | the window holds each entry strictly inside the bounds as many times as the history does, and no other entry |
| `Accounts.BetweenAppend` | src/Account.java:72-76 | appending one entry to the history extends the window by that entry exactly when its date is strictly inside the window |
| `Accounts.BetweenLength` | src/Account.java:72-76 | the window is never longer than the history, and it has the same length exactly when every entry is strictly inside the window |
| `Accounts.ExampleSession` | src/Account.java:35-92 | opening with 100 gives one "Initial Deposit" entry of 100; depositing 10 USD then changes nothing, and withdrawing 200 is refused and changes nothing |
| `Accounts.Account.constructor` | src/Account.java:35-42 | balance = initial balance (no sign check), history = [(now, initial, "Initial Deposit", "GBP")], counters 0 |
| `Accounts.Account.SetFailedLoginAttempts` | src/Account.java:23-25 | only the failed-attempt counter changes, and it takes the given value |
| `Accounts.Account.SetLastFailedLoginTime` | src/Account.java:31-33 | only the last-failure time changes, and it takes the given value |
| `Accounts.Account.Deposit` | src/Account.java:47-63 | the outcome is the first guard that fails, and the new fields are what `AccountState.Deposit` gives (no change, by `DepositIsNoOp`) |
| `Accounts.Account.Withdraw` | src/Account.java:85-92 | returns true exactly when amount ≤ old balance; the new fields are what `AccountState.Withdraw` gives |
| `Accounts.Account.TransactionsBetween` | src/Account.java:72-76 | an entry is returned exactly when it is in the object's history with start < date < end; the result is a subsequence of the history (multiplicity as in `BetweenCounts`) |
| `Accounts.Account.ApplyInterest` | src/Account.java:78-82 | the new fields are what `AccountState.ApplyInterest` gives |
| `Ledger.Attempt` | src/BankApp.java:127-145 | one attempt on an existing account succeeds exactly when it is not locked (`IsLocked`: ≥ 3 failures and now − last failure < 60000) and the PIN matches; only the two counters can change; locked leaves the account as it was; success sets failures to 0 and keeps the last-failure time; an unlocked failure adds 1 and stamps now |
| `Ledger.LoginUnknownId` | src/BankApp.java:119-124 | login on an absent id returns false and leaves the map unchanged |
| `Ledger.LoginWhileLocked` | src/BankApp.java:127-131 | with ≥ 3 failures and now − last failure < 60000, login returns false for any PIN and leaves the map unchanged |
| `Ledger.LoginCorrectPin` | src/BankApp.java:133-136 | when not locked and the PIN matches, login returns true and sets failures to 0; the last-failure time is kept |
| `Ledger.LoginWrongPin` | src/BankApp.java:137-145 | when not locked and the PIN differs, login returns false, adds exactly 1 to failures and sets the last-failure time to now |
| `Ledger.LoginSucceedsIff` | src/BankApp.java:119-146 | login returns true exactly when the id exists, the account is not locked and the attempt equals the stored PIN |
| `Ledger.LoginKeepsMoney` | src/BankApp.java:119-146 | login keeps the key set, every balance, history and PIN; every account other than the one logged into stays as it was |
| `Ledger.LockoutScenario` | src/BankApp.java:127-145 | from 0 failures, three wrong PINs lock the account: an attempt before last failure + 60000 is refused for any PIN without change, and at or after that time the right PIN succeeds and resets failures to 0 |
| `Ledger.CreateSpec` | src/BankApp.java:148-156 | a taken id leaves the map unchanged; otherwise exactly that key is added, bound to a freshly opened account, and every other entry is kept |
| `Ledger.TransferSpec` | src/BankApp.java:162-170 | succeeds exactly when both ids exist and amount ≤ source balance; on failure nothing changes; on success the map is the source withdrawn by amount and nothing else (the destination deposit is a no-op), also when the two ids are equal |
| `Ledger.TransferTotal` | src/BankApp.java:162-170 | the bank's total balance falls by exactly amount on success and is unchanged on failure |
| `Ledger.DepositStepIsNoOp` | src/BankApp.java:172-188 | a deposit by id changes nothing, whether or not the id is found |
| `Ledger.InterestSpec` | src/BankApp.java:190-194 | bulk interest keeps the key set; every account becomes its own single-account interest result, with exactly one more history entry |
| `Ledger.InterestTotal` | src/BankApp.java:190-194 | bulk interest multiplies the bank's total balance by 1 + rate |
| `Ledger.StepsKeepInvariants` | src/BankApp.java:119-194 | every bank operation keeps each account stored under its own id, and keeps each balance equal to the sum of its history |
| `Ledger.Bank.constructor` | src/BankApp.java:117 | a new bank holds no accounts |
| `Ledger.Bank.Login` | src/BankApp.java:119-146 | the result and the new map are those of `LoginStep` |
| `Ledger.Bank.CreateAccount` | src/BankApp.java:148-156 | the new map is that of `CreateStep`; afterwards `GetAccount` finds the id, and for a new id it returns the freshly opened account |
| `Ledger.Bank.GetAccount` | src/BankApp.java:158-160 | an account is found exactly when the id is a key, and the one found is the stored one |
| `Ledger.Bank.Transfer` | src/BankApp.java:162-170 | the result and the new map are those of `TransferStep`: withdraw from the source, then deposit in "GBP" into the destination as it is after the withdrawal |
| `Ledger.Bank.Deposit` | src/BankApp.java:172-178 | the new map is that of `DepositStep`: only the account with that id is affected, exactly as by `AccountState.Deposit` |
| `Ledger.Bank.DepositToAccount` | src/BankApp.java:180-188 | reports whether the id was found; the new map is that of `DepositStep` |
| `Ledger.Bank.ApplyInterestToAllAccounts` | src/BankApp.java:190-194 | visiting the ids in any order, the new map is `InterestStep` of the old one |

## Left out

- Persistence of the map to a file (`saveAccountsToFile`, `loadAccountsFromFile`): Java object serialization. The save calls in `createAccount`, `deposit` and `depositToAccount` are treated as leaving the state unchanged.
- `BankApp.main` and the console helpers (`createAccountUI`, `convertCurrencyUI`, `accountMenu`, `safeNextInt`, `safeNextLine`): console I/O and menu loops.
- All printed diagnostics and `Transaction.toString`, which only format text.
- The wall clock (`new Date()`, `System.currentTimeMillis()`). Each operation takes its time as a parameter, and one operation uses one time for every entry it stamps. `login` reads the clock twice, once for the lockout test and once for the failure stamp; the model uses one `now` for both.
- IEEE-754 double rounding. Amounts and rates are exact reals, so the zero test after conversion is exact.
- Fixed-width integers. The model does not capture `failedLoginAttempts++` wrapping past 2^31 − 1 (Java `int`), or `now - lastFailedLoginTime` overflowing a Java `long`. Both need values no realistic run reaches.
- The duplicate `Account` class in `src/BankApp.java:14-91`. Its deposit, withdraw, interest, conversion, window and PIN code is the same as in `src/Account.java`. It differs in having `final` fields and no getters or setters for `failedLoginAttempts` and `lastFailedLoginTime`; the model follows `src/Account.java`, which has them. `Bank` reading the account's private counters directly is modelled as reading the `AccountState` fields.
- Object identity of accounts. The bank stores accounts as values, so the only way to change an account in the map is through a bank operation. The menu deposits and withdraws through an `Account` reference obtained from `getAccount`, and it iterates the live, mutable list that `getTransactions()` returns; that sharing is not modelled. The class `Account` models a single object on its own. A transfer whose two ids are the same acts, in order, on the one stored account, as the shared object would.
- The plain getters (`getBalance`, `getTransactions()`, `getFailedLoginAttempts`, `getLastFailedLoginTime`) are modelled as `Account` functions that return the field. They carry no contract, because they only return the field. `validatePIN` is `Account.ValidatePin`, which returns `AccountState.ValidatePin` of the object's state; `ValidatePinExact` states what it accepts.
