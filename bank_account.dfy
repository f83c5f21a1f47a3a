/**
 * BankAccount: the per-account state of the ATM (balance, PIN digest,
 * failed-attempt counter, lock flag, transaction history) and its guarded
 * operations.  Each operation either refuses its input without changing
 * anything or applies one precise update.
 */
module Accounts {
  import opened Base
  import opened Transactions
  import opened Lockout
  import opened PinDigest

  class BankAccount {
    const accountNumber: string
    const userName: string
    /** The digest algorithm (SHA-256 in the source), left uninterpreted. */
    const digest: string -> seq<Byte>
    /** The balance the account was opened with; the history explains the rest. */
    ghost const openingBalance: real

    var hashedPin: string
    var balance: real
    var transactionHistory: seq<Transaction>
    var failedPinAttempts: int
    var locked: bool

    /**
     * hashPin: the digest of the PIN rendered as lower-case hex, two digits
     * per digest byte; two PINs hash alike exactly when their digests agree.
     */
    function HashPin(pin: string): (hashed: string)
      ensures |hashed| == 2 * |digest(pin)|
      ensures forall i :: 0 <= i < |hashed| ==> IsHexDigit(hashed[i])
      ensures forall other :: hashed == HexOf(digest(other)) <==> digest(pin) == digest(other)
    {
      HexOfInjectiveAll(digest(pin));
      HexOf(digest(pin))
    }

    ghost function GuardOf(): Guard
      reads this
    {
      Guard(failedPinAttempts, locked)
    }

    /**
     * The object invariant: locked exactly when three attempts have failed,
     * and the balance is the opening balance plus the net of the history.
     */
    ghost predicate Valid()
      reads this
    {
      && Consistent(GuardOf())
      && balance == openingBalance + Net(transactionHistory)
    }

    constructor (accountNumber: string, userName: string, pin: string, initialBalance: real,
                 digest: string -> seq<Byte>)
      ensures Valid()
      ensures this.accountNumber == accountNumber && this.userName == userName
      ensures this.digest == digest && hashedPin == HashPin(pin)
      ensures balance == initialBalance && openingBalance == initialBalance
      ensures transactionHistory == [] && GuardOf() == Fresh
    {
      this.accountNumber := accountNumber;
      this.userName := userName;
      this.digest := digest;
      openingBalance := initialBalance;
      var hex := HexEncode(digest(pin));
      hashedPin := hex;
      balance := initialBalance;
      transactionHistory := [];
      failedPinAttempts := 0;
      locked := false;
    }

    /**
     * validatePin: refused without effect while locked; otherwise a match
     * resets the counter and a mismatch counts, locking at the third.
     */
    method ValidatePin(inputPin: string) returns (isValid: bool)
      requires Valid()
      modifies this`failedPinAttempts, this`locked
      ensures Valid()
      ensures (isValid, GuardOf()) == Attempt(old(GuardOf()), HashPin(inputPin) == hashedPin)
    {
      if locked {
        return false;
      }
      var hex := HexEncode(digest(inputPin));
      isValid := hex == hashedPin;
      if !isValid {
        failedPinAttempts := failedPinAttempts + 1;
        if failedPinAttempts >= MaxAttempts {
          locked := true;
        }
      } else {
        failedPinAttempts := 0;
      }
    }

    method IsLocked() returns (l: bool)
      ensures l == locked
    {
      l := locked;
    }

    /** unlockAccount: the administrative override, ungated here. */
    method UnlockAccount()
      modifies this`failedPinAttempts, this`locked
      ensures GuardOf() == Unlock(old(GuardOf())) == Fresh
      ensures old(Valid()) ==> Valid()
    {
      locked := false;
      failedPinAttempts := 0;
    }

    /**
     * changePin: the digest is replaced only when validatePin accepts the old
     * PIN; a refused change still counts as a failed attempt.
     */
    method ChangePin(oldPin: string, newPin: string) returns (changed: bool)
      requires Valid()
      modifies this`failedPinAttempts, this`locked, this`hashedPin
      ensures Valid()
      ensures (changed, GuardOf()) == Attempt(old(GuardOf()), HashPin(oldPin) == old(hashedPin))
      ensures hashedPin == if changed then HashPin(newPin) else old(hashedPin)
    {
      changed := ValidatePin(oldPin);
      if changed {
        var hex := HexEncode(digest(newPin));
        hashedPin := hex;
      }
    }

    method GetBalance() returns (b: real)
      ensures b == balance
    {
      b := balance;
    }

    /** deposit: refuses a non-positive amount; otherwise credits it and logs a DEPOSIT. */
    method Deposit(amount: real) returns (ok: bool)
      requires Valid()
      modifies this`balance, this`transactionHistory
      ensures Valid()
      ensures ok <==> amount > 0.0
      ensures ok ==> balance == old(balance) + amount
      ensures ok ==> transactionHistory == old(transactionHistory) + [Transaction(Kind.Deposit, amount, accountNumber, None)]
      ensures !ok ==> balance == old(balance) && transactionHistory == old(transactionHistory)
      ensures old(balance) >= 0.0 ==> balance >= 0.0
    {
      if amount <= 0.0 {
        return false;
      }
      var t := Transaction(Kind.Deposit, amount, accountNumber, None);
      NetAppend(transactionHistory, t);
      balance := balance + amount;
      transactionHistory := transactionHistory + [t];
      ok := true;
    }

    /**
     * withdraw: refuses a non-positive amount or one above the balance;
     * otherwise debits it and logs a WITHDRAWAL.
     */
    method Withdraw(amount: real) returns (ok: bool)
      requires Valid()
      modifies this`balance, this`transactionHistory
      ensures Valid()
      ensures ok <==> 0.0 < amount <= old(balance)
      ensures ok ==> balance == old(balance) - amount && balance >= 0.0
      ensures ok ==> transactionHistory == old(transactionHistory) + [Transaction(Kind.Withdrawal, amount, accountNumber, None)]
      ensures !ok ==> balance == old(balance) && transactionHistory == old(transactionHistory)
      ensures old(balance) >= 0.0 ==> balance >= 0.0
    {
      if amount <= 0.0 {
        return false;
      }
      if amount > balance {
        return false;
      }
      var t := Transaction(Kind.Withdrawal, amount, accountNumber, None);
      NetAppend(transactionHistory, t);
      balance := balance - amount;
      transactionHistory := transactionHistory + [t];
      ok := true;
    }

    /**
     * transfer: refuses a missing target, a non-positive amount or one above
     * the balance, changing neither account.  Otherwise moves the amount,
     * logging TRANSFER on the sender and DEPOSIT on the receiver.  Nothing
     * here stops the target from being this very account.
     */
    method Transfer(target: BankAccount?, amount: real) returns (ok: bool)
      requires Valid()
      requires target != null ==> target.Valid()
      modifies this`balance, this`transactionHistory
      modifies if target == null then {} else {target}
      ensures Valid() && (target != null ==> target.Valid())
      ensures ok <==> target != null && 0.0 < amount <= old(balance)
      ensures !ok ==> balance == old(balance) && transactionHistory == old(transactionHistory)
      ensures !ok && target != null ==> unchanged(target)
      ensures ok && target != this ==>
        && balance == old(balance) - amount
        && target.balance == old(target.balance) + amount
        && balance + target.balance == old(balance) + old(target.balance)
        && transactionHistory == old(transactionHistory)
             + [Transaction(Kind.Transfer, amount, accountNumber, Some(target.accountNumber))]
        && target.transactionHistory == old(target.transactionHistory)
             + [Transaction(Kind.Deposit, amount, target.accountNumber, Some(accountNumber))]
      ensures ok && target == this ==>
        && balance == old(balance)
        && transactionHistory == old(transactionHistory)
             + [Transaction(Kind.Transfer, amount, accountNumber, Some(accountNumber)),
                Transaction(Kind.Deposit, amount, accountNumber, Some(accountNumber))]
      ensures ok ==> balance >= 0.0
      ensures target != null ==> target.hashedPin == old(target.hashedPin) && target.GuardOf() == old(target.GuardOf())
    {
      if target == null || amount <= 0.0 || amount > balance {
        return false;
      }
      var out := Transaction(Kind.Transfer, amount, accountNumber, Some(target.accountNumber));
      var into := Transaction(Kind.Deposit, amount, target.accountNumber, Some(accountNumber));
      NetAppend(transactionHistory, out);
      balance := balance - amount;
      target.balance := target.balance + amount;
      transactionHistory := transactionHistory + [out];
      NetAppend(target.transactionHistory, into);
      target.transactionHistory := target.transactionHistory + [into];
      ok := true;
    }

    /** getTransactionHistory: a copy equal to the history. */
    method GetTransactionHistory() returns (history: seq<Transaction>)
      ensures history == transactionHistory
    {
      history := transactionHistory;
    }

    /** getRecentTransactions(count) for count >= 0; the history itself is not touched. */
    method GetRecentTransactions(count: nat) returns (recent: seq<Transaction>)
      ensures |recent| == Min(|transactionHistory|, count)
      ensures recent == transactionHistory[|transactionHistory| - |recent|..]
    {
      var size := |transactionHistory|;
      if size <= count {
        return transactionHistory;
      }
      recent := transactionHistory[size - count..];
    }
  }
}
