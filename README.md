# ATM ledger and quiz scoring, modelled in Dafny

This project models two programs of the repository.

**The ATM simulation** (`ATM_task/ATMInterface.java`) is modelled in these modules:

- `Transactions`: the immutable `Transaction` record (`Transactions.Transaction`, with its type enum as `Transactions.Kind`; ATM_task/ATMInterface.java:19-42).
- `Accounts`: the `BankAccount` class. It holds the balance, the hex digest of the PIN, the failed-attempt counter, the lock flag and the transaction history.
- `Lockout`: the lockout rule of `validatePin` and the three-attempt login loop, as pure functions. The methods of `BankAccount` and `ATM` are proved to follow them.
- `PinDigest`: the hex rendering loop of `hashPin`. The digest algorithm itself is an uninterpreted function value.
- `Decimal`: the zero-padded account numbers and Java's integer rendering.
- `JavaString`: Java's `String.length()`, which counts UTF-16 code units.
- `Doubles`: the amount guards evaluated as Java evaluates them on `double`, NaN and the infinities included.
- `Machine`: the `ATM` class. It covers:
  - the directory of accounts;
  - the creation loops of `createNewAccount`;
  - `authenticateUser`, with the locked-account branch;
  - logout, and the session timeout as an explicit event;
  - the guarded menu operations: balance, deposit, withdraw, transfer, history and PIN change.
- `Walkthrough`: whole sessions on a fresh ATM with the sample accounts. One is a deposit, a refused overdraft and a transfer of the whole balance. One is a lockout after three wrong PINs at login. One locks the account from the change-PIN menu and keeps using the session.

Every `BankAccount` keeps this invariant:

- it is locked exactly when three attempts have failed;
- its balance equals the opening balance plus the net of its history.

Every `ATM` keeps this invariant:

- each key of the directory names an account with that number;
- a session is open exactly when there is a current account.

**The trivia quiz** (`Quiz/QuizApp.java`) is modelled in these modules:

- `Entities`: `decodeHtmlEntities`, as nine literal replace-all passes in the source's order.
- `Questions`: `Question` values, the option array built by `parseQuestions`, `getCorrectAnswer`, and the scan for the selected option button.
- `Scoring`: the `QuizResult` class and the integer percentage of `getScore`.
- `QuizFlow`: the grading of `processAnswer` and of the countdown's time-out branch.

Console input, random draws and the administrator's decision are parameters. For console input the parameter is the sequence of lines the user would type, in order.

Where the code and its design description differ, the model follows the code:

- A transfer logs `TRANSFER` on the sender and `DEPOSIT` on the receiver. There are no separate incoming and outgoing transfer kinds.
- The account constructor accepts any initial balance. So non-negativity is not part of the invariant. It is proved instead as preserved by every operation, and as guaranteed after every successful withdrawal or transfer.
- `BankAccount.transfer` itself does not refuse the account's own number as target. Only the ATM's transfer menu does. The model states what a self-transfer does: the balance is unchanged and two entries are logged.
- The session timeout closes the session unconditionally. Menu operations do not refresh any deadline in the model. Activity timestamps are left out.
- An account locked in the middle of a session keeps that session. Three wrong current PINs in `changePin` (line 648) lock the account, but no menu operation at lines 509-604 calls `isLocked()`. So deposits, withdrawals and transfers still go through. The model's `Machine.ATM.Deposit`, `Withdraw` and `TransferMoney` require only an open session, and `Walkthrough.LockedMidSession` shows the sequence.
- The length checks on PINs use Java's `length()`, which counts UTF-16 code units. A character outside the Basic Multilingual Plane counts twice. So two emoji pass the four-character check of `changePin` (line 656).
- Amounts are parsed with `Double.parseDouble`, which also accepts `NaN` and `Infinity`. The guards were written for numbers and let some of these through (see "## Findings"). The account and ATM methods take amounts as `real`, the intended domain.

## Model

| member | source | states |
|---|---|---|
| Transactions.Recent | ATM_task/ATMInterface.java:224-232 | the recent view has min(size, count) entries and is exactly the tail of the history, in order |
| Transactions.RecentIdempotent | ATM_task/ATMInterface.java:224-232 | taking the recent view of a recent view with the same count changes nothing |
| Transactions.RecentAfterAppend | ATM_task/ATMInterface.java:224-232 | after one more transaction, the recent view ends with it and begins with the previous count-1 recent entries |
| Transactions.NetAppend | ATM_task/ATMInterface.java:175-217 | logging one entry moves the net ledger effect by exactly that entry's signed amount |
| Lockout.Attempt | ATM_task/ATMInterface.java:133-151 | validatePin returns true iff the account is unlocked and the PIN matches; a locked account is left as it was; success resets the counter; a failure adds one to it; and the rule "locked iff three failures" is preserved |
| Lockout.Unlock | ATM_task/ATMInterface.java:157-160 | unlockAccount leaves the account unlocked with no failures |
| Lockout.RunKeepsConsistent | ATM_task/ATMInterface.java:133-151 | any series of PIN attempts keeps "locked iff three failures" |
| Lockout.LockedAbsorbs | ATM_task/ATMInterface.java:134-136 | once locked, no series of attempts (the correct PIN included) changes the account |
| Lockout.FailuresLock | ATM_task/ATMInterface.java:140-145 | n wrong PINs lock an unlocked account iff its counter plus n reaches three |
| Lockout.Login | ATM_task/ATMInterface.java:434-453 | a successful login loop leaves the account unlocked with no failures |
| Lockout.LoginSucceedsIffMatchBeforeLock | ATM_task/ATMInterface.java:434-453 | the login loop opens a session iff some PIN matches while the account is not yet locked by the earlier ones |
| Lockout.ThreeWrongPinsAtLoginLock | ATM_task/ATMInterface.java:434-453 | three wrong PINs at login, starting from no failures, fail and leave the account locked with three failures |
| PinDigest.HexOf | ATM_task/ATMInterface.java:105-117 | the rendering of a digest has two lower-case hex digits per byte |
| PinDigest.HexEncode | ATM_task/ATMInterface.java:111-115 | the StringBuilder loop (toHexString, with '0' in front of a single digit) builds exactly HexOf of the digest |
| PinDigest.ByteHexRoundTrip | ATM_task/ATMInterface.java:112-114 | each byte becomes exactly two hex digits that read back as the byte |
| PinDigest.UnhexHexOf | ATM_task/ATMInterface.java:105-117 | the digest is recovered from its hex rendering |
| PinDigest.HexOfInjective | ATM_task/ATMInterface.java:138 | comparing hex renderings is the same as comparing digests |
| PinDigest.HexOfInjectiveAll | ATM_task/ATMInterface.java:138 | for a given digest and every other one: equal renderings iff equal digests |
| PinDigest.ToHexString | ATM_task/ATMInterface.java:112 | Integer.toHexString of a byte value: one hex digit iff the value is below 16, otherwise two without a leading zero; either way the digits read back as the value |
| Accounts.BankAccount.HashPin | ATM_task/ATMInterface.java:105-117 | the stored PIN has two hex digits per digest byte, and equals another PIN's rendering iff the two digests are equal |
| JavaString.Utf16Length | ATM_task/ATMInterface.java:656 | Java's length() lies between the number of characters and twice that |
| JavaString.Utf16LengthOfBmp | ATM_task/ATMInterface.java:308 | for text without supplementary characters, such as digits, length() is the number of characters |
| JavaString.TwoEmojiAreFourUnits | ATM_task/ATMInterface.java:656 | two emoji are two characters with a length() of four, so they pass the four-character check for a new PIN |
| Decimal.IntToStringRoundTrip | Quiz/QuizApp.java:81 | the decimal rendering of an integer (with '-' for negatives) reads back as the same integer |
| Decimal.IntToString | Quiz/QuizApp.java:81 | Java's int rendering: a '-' exactly for negatives, then decimal digits with no leading zero except in "0" itself |
| Decimal.PadZeros | ATM_task/ATMInterface.java:333 | %06d-style padding: at least width digits whose value is n; longer than width only when n's own rendering is |
| Decimal.PadZerosExact | ATM_task/ATMInterface.java:331-334 | zero-padding n < 10^w to width w gives exactly w digits whose value is n |
| Machine.AccountNumber | ATM_task/ATMInterface.java:331-334 | a generated account number has six digits and value draw + 100000, in 100000..999999 |
| Machine.IsValidNewPin | ATM_task/ATMInterface.java:308 | a new PIN is accepted iff it has four or more characters, all digits 0-9; an accepted PIN's length() equals its character count |
| Machine.PinOutcomes | ATM_task/ATMInterface.java:434-438 | the login loop reads at most three PINs |
| Accounts.BankAccount.constructor | ATM_task/ATMInterface.java:94-103 | a new account holds the hashed PIN and the initial balance, has an empty history, and is unlocked with no failures |
| Accounts.BankAccount.ValidatePin | ATM_task/ATMInterface.java:133-151 | the answer and the new counter and lock flag are exactly Lockout.Attempt on whether the PIN's digest matches the stored one |
| Accounts.BankAccount.IsLocked | ATM_task/ATMInterface.java:153-155 | reports the lock flag |
| Accounts.BankAccount.UnlockAccount | ATM_task/ATMInterface.java:157-160 | the counter and lock flag become Lockout.Unlock of the old ones |
| Accounts.BankAccount.ChangePin | ATM_task/ATMInterface.java:162-168 | the old PIN is checked as one validatePin attempt; the stored digest becomes the new PIN's exactly when that attempt succeeds |
| Accounts.BankAccount.GetBalance | ATM_task/ATMInterface.java:170-173 | returns the balance |
| Accounts.BankAccount.Deposit | ATM_task/ATMInterface.java:175-184 | succeeds iff amount > 0; then the balance grows by amount and one DEPOSIT entry is logged; otherwise nothing changes |
| Accounts.BankAccount.Withdraw | ATM_task/ATMInterface.java:186-199 | succeeds iff 0 < amount <= balance; then the balance drops by amount (staying >= 0) and one WITHDRAWAL entry is logged; otherwise nothing changes |
| Accounts.BankAccount.Transfer | ATM_task/ATMInterface.java:201-217 | succeeds iff there is a target and 0 < amount <= balance; then the sum of the two balances is conserved, the sender logs TRANSFER and the receiver DEPOSIT; a self-transfer keeps the balance and logs both; a refusal changes neither account |
| Accounts.BankAccount.GetTransactionHistory | ATM_task/ATMInterface.java:219-222 | returns the whole history |
| Accounts.BankAccount.GetRecentTransactions | ATM_task/ATMInterface.java:224-232 | returns the last min(size, count) entries of the history, in order |
| Machine.ATM.constructor | ATM_task/ATMInterface.java:253-261 | starts with no session; keeps a non-empty stored directory; seeds an empty one with the two sample accounts |
| Machine.ATM.InitializeSampleAccounts | ATM_task/ATMInterface.java:263-268 | the directory holds exactly 123456 (John Doe, PIN 1234, 5000) and 789012 (Jane Smith, PIN 5678, 7500), both unlocked |
| Machine.ATM.AddAccount | ATM_task/ATMInterface.java:290-292 | the account is registered under its own number, replacing any previous entry |
| Machine.ATM.CreateNewAccount | ATM_task/ATMInterface.java:294-329 | on success: a fresh six-digit number (the first draw not yet taken), the first valid PIN (four or more digits), the first deposit line of at least 100 as the balance, the ATM's digest function, and nothing else in the directory changes; without such input, nothing is created |
| Machine.ATM.AuthenticateUser | ATM_task/ATMInterface.java:398-454 | unknown numbers and locked accounts without unlock change nothing; otherwise the PIN loop runs (after unlock if granted), and a session opens iff it succeeds; balances, histories and PINs are untouched |
| Machine.ATM.TryPins | ATM_task/ATMInterface.java:434-453 | the loop's answer and the account's new counter and lock flag are exactly Lockout.Login on the outcomes of the PINs read |
| Machine.ATM.Logout | ATM_task/ATMInterface.java:676-684 | the session is closed and no account is current |
| Machine.ATM.SessionTimeout | ATM_task/ATMInterface.java:462-470 | the timer event closes any open session |
| Machine.ATM.CheckBalance | ATM_task/ATMInterface.java:509-514 | reports the current account's balance |
| Machine.ATM.Deposit | ATM_task/ATMInterface.java:516-535 | done iff amount > 0; then exactly the account's deposit takes effect; otherwise InvalidAmount and nothing changes |
| Machine.ATM.Withdraw | ATM_task/ATMInterface.java:537-562 | InvalidAmount iff amount <= 0, InsufficientFunds iff the amount exceeds the balance, done otherwise with the account's withdrawal; refusals change nothing |
| Machine.ATM.TransferMoney | ATM_task/ATMInterface.java:564-604 | refuses the caller's own number, unknown numbers, non-positive amounts and overdrafts, in that order, changing nothing; otherwise the two distinct accounts exchange the amount with the sum conserved and one entry logged on each; the account's own refusal is unreachable |
| Machine.ATM.ShowTransactionHistory | ATM_task/ATMInterface.java:606-640 | choice 1 shows the last five entries, choice 2 the whole history, anything else nothing |
| Machine.ATM.ChangePin | ATM_task/ATMInterface.java:642-674 | the current PIN costs one validatePin attempt; the PIN changes iff it matched on an unlocked account and the new PIN has a Java length() (UTF-16 units) of four or more and is confirmed; the account's second check cannot fail; money is untouched |
| Walkthrough.SampleSession | ATM_task/ATMInterface.java:516-604 | on a fresh ATM, John Doe logs in, deposits 100, is refused 6000, and transfers 5100, which leaves him 0 and Jane Smith 12600 |
| Walkthrough.LockoutSession | ATM_task/ATMInterface.java:416-453 | three wrong PINs are rejected, and the next login, even with the right PIN, is refused as locked |
| Walkthrough.LockedMidSession | ATM_task/ATMInterface.java:642-652 | three wrong current PINs in the change-PIN menu lock John Doe's account, and a deposit of 100 in the same session still succeeds |
| Walkthrough.WrongCurrentPin | ATM_task/ATMInterface.java:647-650 | a wrong current PIN costs one validatePin attempt, refuses the change and leaves the session open |
| Walkthrough.WrongPinOutcomes | ATM_task/ATMInterface.java:138 | a PIN whose digest differs from the stored PIN's fails each comparison |
| Entities.DecodeHtmlEntities | Quiz/QuizApp.java:214-224 | every entity is longer than what replaces it, so the decoded text is never longer than the input |
| Entities.ReplaceAllLength | Quiz/QuizApp.java:215 | a literal replace-all whose replacement is no longer than its pattern never lengthens the text |
| Entities.DecodeFromLength | Quiz/QuizApp.java:215-223 | the remaining passes of the table, applied in order, never lengthen the text |
| Entities.DecodeWithoutAmpersand | Quiz/QuizApp.java:214-224 | text without '&' is returned unchanged |
| Entities.DecodeFirstTwo | Quiz/QuizApp.java:214-216 | decoding replaces "&quot;" first and "&amp;" second, then the other seven entities |
| Entities.DecodeAmpQuot | Quiz/QuizApp.java:214-224 | because of that order, "&amp;quot;" decodes to "&quot;", not to a double quote |
| Entities.ReplaceAllAbsent | Quiz/QuizApp.java:215 | a replace-all whose pattern does not occur returns its input |
| Questions.Label | Quiz/QuizApp.java:201-204 | an option is its letter 'A' + i, then ". ", then the answer text |
| Questions.GetCorrectAnswer | Quiz/QuizApp.java:50-52 | the correct option is its three-character label followed by the returned answer |
| Questions.ParseQuestion | Quiz/QuizApp.java:182-208 | decoded text; incorrect answers first, in order, then the correct one, each labelled by position; the correct index is the number of incorrect answers; a time limit in 20..30; getCorrectAnswer gives back the decoded correct answer |
| Questions.ParseQuestions | Quiz/QuizApp.java:168-212 | one question per result entry, each parsed from its entry |
| Questions.CorrectAnswerOfParsed | Quiz/QuizApp.java:50-52 | for any parsed question, getCorrectAnswer returns exactly the decoded correct answer |
| Questions.IsCorrect | Quiz/QuizApp.java:945 | a verdict is correct only when the selected index equals the correct one, so no selection (-1) is never correct |
| Questions.SelectedAnswerIndex | Quiz/QuizApp.java:929-940 | the index of the first selected button, or -1 iff no button is selected |
| Scoring.Truncate | Quiz/QuizApp.java:94 | the (int) cast rounds toward zero: the integer between 0 and x that lies less than 1 away from x |
| Scoring.Score | Quiz/QuizApp.java:93-95 | 0 without questions; otherwise a percentage in 0..100 when correct <= total |
| Scoring.ScoreIsWholePercent | Quiz/QuizApp.java:93-95 | the truncated percentage equals 100 * correct / total in integer division |
| Scoring.CountTrueAppend | Quiz/QuizApp.java:73-79 | one more verdict adds one to the count of correct verdicts iff it is true |
| Scoring.QuizResult.constructor | Quiz/QuizApp.java:62-68 | an empty tally |
| Scoring.QuizResult.AddResult | Quiz/QuizApp.java:70-83 | one more question; one more correct answer iff isCorrect; the answer and verdict appended; "Question n+1" appended iff timed out; the counters stay equal to the lists |
| Scoring.QuizResult.GetTotalQuestions | Quiz/QuizApp.java:85-87 | returns the number of questions |
| Scoring.QuizResult.GetCorrectAnswers | Quiz/QuizApp.java:89-91 | returns the number of correct answers |
| Scoring.QuizResult.GetScore | Quiz/QuizApp.java:93-95 | the score is in 0..100, 0 without questions, and otherwise 100 * (true verdicts) / (verdicts) |
| Scoring.QuizResult.GetTimedOutQuestions | Quiz/QuizApp.java:97-99 | returns the timed-out labels |
| Scoring.QuizResult.GetAnswerResults | Quiz/QuizApp.java:101-103 | returns the verdicts |
| QuizFlow.ProcessAnswer | Quiz/QuizApp.java:925-947 | the recorded answer is the first selected option (-1 when none); it is graded correct iff it equals the correct index, so no selection is always wrong; it is not a time-out |
| QuizFlow.RecordTimeout | Quiz/QuizApp.java:897-911 | a time-out records answer -1, graded incorrect, and lists "Question n+1" as timed out |
| Doubles.ComparisonsOnFinite | ATM_task/ATMInterface.java:545-550 | on finite values Java's < and <= on doubles are those of the reals |
| Doubles.NaNIsUnordered | ATM_task/ATMInterface.java:545-550 | NaN is neither below, above nor equal to any value, itself included |
| Doubles.NaNWithdrawalPoisonsBalance | ATM_task/ATMInterface.java:186-199 | a NaN withdrawal passes both guards and leaves a NaN balance, though it is not an intended amount |
| Doubles.NonFiniteDepositsAccepted | ATM_task/ATMInterface.java:175-184 | a NaN or +Infinity deposit passes the guard and the balance becomes NaN or +Infinity |
| Doubles.NonFiniteOpeningDepositsAccepted | ATM_task/ATMInterface.java:317-321 | a NaN or +Infinity opening deposit ends the prompt loop |
| Doubles.WithdrawalGuardAdmitsOnlyNaNBeyondIntent | ATM_task/ATMInterface.java:545-553 | the written withdrawal and transfer guards admit exactly the intended amounts plus NaN |
| Doubles.DepositGuardAdmitsNonFinite | ATM_task/ATMInterface.java:521-524 | the written deposit guard admits exactly the intended amounts plus NaN and +Infinity |
| Doubles.OpeningGuardAdmitsNonFinite | ATM_task/ATMInterface.java:317-321 | the written opening-deposit loop stops on exactly the intended amounts plus NaN and +Infinity |
| Doubles.IntendedGuardsOnFinite | ATM_task/ATMInterface.java:175-199 | on finite amounts the intended guards are the real-valued ones the account and ATM methods check, and an allowed withdrawal leaves a non-negative balance |
| Doubles.AllowedAmountsKeepBalanceFinite | ATM_task/ATMInterface.java:175-199 | an intended amount keeps a finite balance finite, both for a withdrawal and for a deposit |

## Left out

- Persistence is left out. The serialized account file, `loadAccounts` and `saveAccounts` are not modelled. The ATM constructor takes the loaded directory as a parameter.
- Console I/O is left out: the menu loop, prompts, receipts and messages. Input lines are parameters. If input runs out, `createNewAccount` creates nothing and login fails. The Java program would block instead.
- The SHA-256 algorithm is left out, along with the plain-text fallback when it is unavailable. Each account holds the digest as a function value that is never interpreted. `PinDigest.HexOf` models only the hex rendering.
- Timestamps are left out: transaction dates, `lastActivity` and `updateLastActivity`.
- The timer thread is left out. Its race with menu operations is not modelled. The timeout is the explicit event `Machine.ATM.SessionTimeout`, and menu operations do not restart a deadline.
- Machine.ATM.AuthenticateUser: the administrator password check ("admin123") is reduced to a boolean parameter `unlockGranted`. The "new customer?" branch is left out. It only calls `createNewAccount`, which is modelled on its own.
- `Math.random` is left out. Its draws are parameters: the account-number draw in 0..899999 and the time-limit draw in 0..10.
- Money is modelled as exact `real`, not IEEE `double`. Rounding of amounts and balances is not modelled, and neither is overflow to infinity.
- Non-finite amounts are left out of the account and ATM methods. `Double.parseDouble` (ATM_task/ATMInterface.java:501-503) accepts `NaN`, `Infinity` and `-Infinity`, but those methods take a `real`. The `Doubles` module models what the written guards do with these values.
- Input lines are taken as already trimmed. The Java code calls `trim()` on each line it reads.
- Scoring.Score: computed exactly. In `double` arithmetic, `(29 / 100.0) * 100` is slightly below 29, so Java's cast gives 28 where the model gives 29. The reason is that 0.29 has no exact binary representation, and 0.29 * 100 evaluates to 28.999999999999996.
- Java `int` overflow is not modelled. This covers the attempt and question counters and `questionNumber + 1`.
- Accounts.BankAccount.GetRecentTransactions: the count is a `nat`. Java's `subList` throws for a negative count, which the model does not express.
- Questions.Label: the label character `'A' + i` is limited to below the surrogate range (`LabelLimit`). Beyond it Java's `(char)` cast gives lone surrogate code units (0xD800..0xDFFF), which a Dafny `char` cannot hold. Only past 0xFFFF does the cast wrap around.
- The quiz's HTTP client and JSON parsing are left out. So is the fallback to the built-in sample questions on a non-zero response code or an error. `Questions.ParseQuestions` takes the already-parsed `results` entries.
- The Swing user interface is left out, including highlighting and the navigation state. A `processAnswer` after the countdown already recorded a time-out would record a second entry for the same question; the model records each call as it comes.
- The `toString` of `Transaction` and the printed quiz summary are presentation only, and are not modelled.

## Findings

| source | as written | input that shows it | evidently intended | confidence | as-written member | corrected member |
|---|---|---|---|---|---|---|
| ATM_task/ATMInterface.java:186-199 | `withdraw` refuses when `amount <= 0` or `amount > balance`; both are false for NaN, so the withdrawal goes ahead (the menu checks at 545-553 and the transfer checks at 202 and 587-595 are the same) | the line `NaN` at the withdrawal prompt | refuse anything that is not a positive number of dollars within the balance; the balance stays a number | high; not executed | Doubles.NaNWithdrawalPoisonsBalance | Doubles.IntendedGuardsOnFinite |
| ATM_task/ATMInterface.java:175-184 | `deposit` refuses only when `amount <= 0`, which is false for NaN and for +Infinity (the menu check at 523 is the same) | the line `NaN` or `Infinity` at the deposit prompt | accept only a positive finite amount | high; not executed | Doubles.NonFiniteDepositsAccepted | Doubles.AllowedAmountsKeepBalanceFinite |
| ATM_task/ATMInterface.java:317-321 | the opening-deposit loop repeats while `initialDeposit < 100`, which is false for NaN and for +Infinity | the line `NaN` at the initial deposit prompt | ask again until a finite amount of at least 100 is entered | high; not executed | Doubles.NonFiniteOpeningDepositsAccepted | Doubles.IntendedGuardsOnFinite |
