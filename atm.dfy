/**
 * The ATM: the directory of accounts keyed by account number, and the
 * session state (currentAccount, isSessionActive) driven by login, logout,
 * the inactivity timeout and the guarded menu operations.  Console prompts
 * become parameters: the lines the user would type, in order.
 */
module Machine {
  import opened Base
  import opened Decimal
  import opened Transactions
  import opened Lockout
  import opened PinDigest
  import opened Accounts
  import opened JavaString

  /** Smallest opening deposit createNewAccount accepts. */
  const MinimumOpeningDeposit := 100.0

  /** Number of entries the "recent transactions" view shows. */
  const RecentCount := 5

  datatype LoginOutcome = LoggedIn | AccountNotFound | LockedOut | PinRejected

  /** What a menu operation reports; everything but Done leaves every balance alone. */
  datatype Outcome = Done | InvalidAmount | InsufficientFunds | SameAccount | TargetNotFound | OperationFailed

  datatype PinChange = PinChanged | IncorrectPin | PinTooShort | PinMismatch | ChangeFailed

  /**
   * generateAccountNumber, given the random draw (int)(Math.random() * 900000):
   * the draw plus 100000, zero-padded to six digits.
   */
  function AccountNumber(draw: int): (n: string)
    requires 0 <= draw < 900000
    ensures |n| == 6 && AllDigits(n) && Value(n) == draw + 100000
    ensures 100000 <= Value(n) <= 999999
  {
    assert Pow10(6) == 1000000;
    PadZerosExact(draw + 100000, 6);
    PadZeros(draw + 100000, 6)
  }

  /**
   * The PIN rule of createNewAccount: a length() of at least four and only
   * the digits 0-9 (the default meaning of \d in a Java pattern).  Such a
   * PIN has no supplementary characters, so it has at least four characters.
   */
  function IsValidNewPin(pin: string): (valid: bool)
    ensures valid <==> |pin| >= 4 && AllDigits(pin)
    ensures valid ==> Utf16Length(pin) == |pin|
  {
    if AllDigits(pin) then
      Utf16LengthOfBmp(pin);
      Utf16Length(pin) >= 4
    else false
  }

  /** Every key names an account with that number, and every account keeps its invariant. */
  ghost predicate WellKeyed(accounts: map<string, BankAccount>)
    reads accounts.Values
  {
    forall n :: n in accounts ==> accounts[n].accountNumber == n && accounts[n].Valid()
  }

  /** The comparison outcomes of the at most three PINs the login loop reads. */
  ghost function PinOutcomes(account: BankAccount, pins: seq<string>): (r: seq<bool>)
    reads account
    ensures |r| == Min(MaxAttempts, |pins|)
  {
    var stored := account.hashedPin;
    seq(Min(MaxAttempts, |pins|), i requires 0 <= i < Min(MaxAttempts, |pins|) =>
      account.HashPin(pins[i]) == stored)
  }

  class ATM {
    /** The digest algorithm every account created here uses. */
    const digest: string -> seq<Byte>
    var accounts: map<string, BankAccount>
    var currentAccount: BankAccount?
    var isSessionActive: bool

    /** A session is open exactly when there is a current account. */
    ghost predicate Valid()
      reads this, accounts.Values, currentAccount
    {
      && WellKeyed(accounts)
      && (isSessionActive <==> currentAccount != null)
      && (currentAccount != null ==> currentAccount.Valid())
    }

    /**
     * The ATM constructor, with the persisted directory as a parameter
     * (empty when nothing was stored): an empty directory is seeded with the
     * two sample accounts.
     */
    constructor (digest: string -> seq<Byte>, stored: map<string, BankAccount>)
      requires WellKeyed(stored)
      ensures Valid() && this.digest == digest
      ensures !isSessionActive && currentAccount == null
      ensures |stored| != 0 ==> accounts == stored
      ensures |stored| == 0 ==>
        && accounts.Keys == {"123456", "789012"}
        && accounts["123456"].userName == "John Doe" && accounts["123456"].balance == 5000.0
        && accounts["123456"].hashedPin == accounts["123456"].HashPin("1234")
        && accounts["789012"].userName == "Jane Smith" && accounts["789012"].balance == 7500.0
        && accounts["789012"].hashedPin == accounts["789012"].HashPin("5678")
        && accounts["123456"].GuardOf() == Fresh && accounts["789012"].GuardOf() == Fresh
        && fresh(accounts["123456"]) && fresh(accounts["789012"])
        && accounts["123456"].digest == digest && accounts["789012"].digest == digest
    {
      this.digest := digest;
      accounts := stored;
      currentAccount := null;
      isSessionActive := false;
      new;
      if |accounts| == 0 {
        InitializeSampleAccounts();
      }
    }

    method InitializeSampleAccounts()
      requires Valid() && accounts == map[]
      modifies this`accounts
      ensures Valid()
      ensures accounts.Keys == {"123456", "789012"}
      ensures accounts["123456"].userName == "John Doe" && accounts["123456"].balance == 5000.0
      ensures accounts["123456"].hashedPin == accounts["123456"].HashPin("1234")
      ensures accounts["789012"].userName == "Jane Smith" && accounts["789012"].balance == 7500.0
      ensures accounts["789012"].hashedPin == accounts["789012"].HashPin("5678")
      ensures accounts["123456"].GuardOf() == Fresh && accounts["789012"].GuardOf() == Fresh
      ensures fresh(accounts["123456"]) && fresh(accounts["789012"])
      ensures accounts["123456"].digest == digest && accounts["789012"].digest == digest
    {
      var john := new BankAccount("123456", "John Doe", "1234", 5000.0, digest);
      AddAccount(john);
      var jane := new BankAccount("789012", "Jane Smith", "5678", 7500.0, digest);
      AddAccount(jane);
    }

    /** addAccount: registers the account under its own number, replacing any previous one. */
    method AddAccount(account: BankAccount)
      requires Valid() && account.Valid()
      modifies this`accounts
      ensures Valid()
      ensures accounts == old(accounts)[account.accountNumber := account]
    {
      accounts := accounts[account.accountNumber := account];
    }

    /**
     * createNewAccount: draws account numbers until one is not taken, then
     * reads PINs until one has at least four digits, then amounts until one
     * is at least 100.  Running out of draws or input lines creates nothing.
     */
    method CreateNewAccount(userName: string, draws: seq<int>, pinLines: seq<string>, depositLines: seq<real>)
      returns (created: Option<string>)
      requires Valid()
      requires forall k :: 0 <= k < |draws| ==> 0 <= draws[k] < 900000
      modifies this`accounts
      ensures Valid()
      ensures created.None? ==> accounts == old(accounts)
      ensures created.None? ==>
        || (forall k :: 0 <= k < |draws| ==> AccountNumber(draws[k]) in old(accounts))
        || (forall k :: 0 <= k < |pinLines| ==> !IsValidNewPin(pinLines[k]))
        || (forall k :: 0 <= k < |depositLines| ==> depositLines[k] < MinimumOpeningDeposit)
      ensures created.Some? ==>
        var n := created.value;
        && n !in old(accounts) && n in accounts
        && accounts == old(accounts)[n := accounts[n]]
        && fresh(accounts[n])
        && |n| == 6 && AllDigits(n) && 100000 <= Value(n) <= 999999
        && (exists k :: 0 <= k < |draws| && n == AccountNumber(draws[k])
              && forall j :: 0 <= j < k ==> AccountNumber(draws[j]) in old(accounts))
        && accounts[n].userName == userName
        && accounts[n].balance >= MinimumOpeningDeposit
        && (exists d :: 0 <= d < |depositLines| && depositLines[d] >= MinimumOpeningDeposit
              && accounts[n].balance == depositLines[d]
              && forall j :: 0 <= j < d ==> depositLines[j] < MinimumOpeningDeposit)
        && accounts[n].digest == digest
        && accounts[n].transactionHistory == [] && accounts[n].GuardOf() == Fresh
        && (exists p :: 0 <= p < |pinLines| && IsValidNewPin(pinLines[p])
              && accounts[n].hashedPin == accounts[n].HashPin(pinLines[p])
              && forall j :: 0 <= j < p ==> !IsValidNewPin(pinLines[j]))
    {
      var i := 0;
      while i < |draws| && AccountNumber(draws[i]) in accounts
        invariant 0 <= i <= |draws|
        invariant forall j :: 0 <= j < i ==> AccountNumber(draws[j]) in accounts
      {
        i := i + 1;
      }
      if i == |draws| {
        return None;
      }
      var accountNumber := AccountNumber(draws[i]);

      var p := 0;
      while p < |pinLines| && !IsValidNewPin(pinLines[p])
        invariant 0 <= p <= |pinLines|
        invariant forall j :: 0 <= j < p ==> !IsValidNewPin(pinLines[j])
      {
        p := p + 1;
      }
      if p == |pinLines| {
        return None;
      }

      var d := 0;
      while d < |depositLines| && depositLines[d] < MinimumOpeningDeposit
        invariant 0 <= d <= |depositLines|
        invariant forall j :: 0 <= j < d ==> depositLines[j] < MinimumOpeningDeposit
      {
        d := d + 1;
      }
      if d == |depositLines| {
        return None;
      }

      var newAccount := new BankAccount(accountNumber, userName, pinLines[p], depositLines[d], digest);
      AddAccount(newAccount);
      created := Some(accountNumber);
    }

    /**
     * authenticateUser: looks the number up; a locked account must first be
     * unlocked (the administrator's approval is a parameter); then up to
     * three PINs are tried, and the first one validatePin accepts opens the
     * session.
     */
    method AuthenticateUser(accountNumber: string, unlockGranted: bool, pins: seq<string>)
      returns (outcome: LoginOutcome)
      requires Valid() && !isSessionActive
      modifies this`currentAccount, this`isSessionActive
      modifies if accountNumber in accounts then {accounts[accountNumber]} else {}
      ensures Valid()
      ensures outcome == AccountNotFound <==> accountNumber !in accounts
      ensures outcome == LockedOut <==>
        accountNumber in accounts && old(accounts[accountNumber].locked) && !unlockGranted
      ensures accountNumber in accounts ==>
        && accounts[accountNumber].balance == old(accounts[accountNumber].balance)
        && accounts[accountNumber].transactionHistory == old(accounts[accountNumber].transactionHistory)
      ensures outcome in {AccountNotFound, LockedOut} ==>
        accountNumber in accounts ==> unchanged(accounts[accountNumber])
      ensures accountNumber in accounts && outcome != LockedOut ==>
        var account := accounts[accountNumber];
        var start := if old(account.locked) then Unlock(old(account.GuardOf())) else old(account.GuardOf());
        && (outcome == LoggedIn, account.GuardOf()) == Login(start, old(PinOutcomes(account, pins)))
        && account.hashedPin == old(account.hashedPin)
      ensures outcome == LoggedIn <==> isSessionActive
      ensures outcome == LoggedIn ==> currentAccount == accounts[accountNumber]
      ensures outcome != LoggedIn ==> currentAccount == null
    {
      if accountNumber !in accounts {
        return AccountNotFound;
      }
      var account := accounts[accountNumber];
      var isLocked := account.IsLocked();
      if isLocked {
        if !unlockGranted {
          return LockedOut;
        }
        account.UnlockAccount();
      }
      var ok := TryPins(account, pins);
      if ok {
        currentAccount := account;
        isSessionActive := true;
        return LoggedIn;
      }
      outcome := PinRejected;
    }

    /** The PIN loop of authenticateUser: at most three PINs, stopping at the first accepted one. */
    static method TryPins(account: BankAccount, pins: seq<string>) returns (ok: bool)
      requires account.Valid()
      modifies account`failedPinAttempts, account`locked
      ensures account.Valid()
      ensures (ok, account.GuardOf()) == Login(old(account.GuardOf()), PinOutcomes(account, pins))
    {
      ghost var outcomes := PinOutcomes(account, pins);
      ghost var start := account.GuardOf();
      var attempts := 0;
      while attempts < MaxAttempts && attempts < |pins|
        invariant 0 <= attempts <= |outcomes|
        invariant account.Valid() && PinOutcomes(account, pins) == outcomes
        invariant Login(start, outcomes) == Login(account.GuardOf(), outcomes[attempts..])
      {
        ok := account.ValidatePin(pins[attempts]);
        assert outcomes[attempts..][0] == outcomes[attempts];
        if ok {
          return;
        }
        assert outcomes[attempts..][1..] == outcomes[attempts + 1..];
        attempts := attempts + 1;
      }
      ok := false;
    }

    /** logout: closes the session. */
    method Logout()
      requires Valid() && isSessionActive
      modifies this`currentAccount, this`isSessionActive
      ensures Valid()
      ensures !isSessionActive && currentAccount == null
    {
      isSessionActive := false;
      currentAccount := null;
    }

    /** The inactivity timer firing, as an explicit event: an open session is closed. */
    method SessionTimeout()
      requires Valid()
      modifies this`currentAccount, this`isSessionActive
      ensures Valid()
      ensures !isSessionActive && currentAccount == null
    {
      if isSessionActive {
        isSessionActive := false;
        currentAccount := null;
      }
    }

    /** checkBalance. */
    method CheckBalance() returns (balance: real)
      requires Valid() && isSessionActive
      ensures balance == currentAccount.balance
    {
      balance := currentAccount.GetBalance();
    }

    /** deposit from the menu: a non-positive amount is refused before the account is asked. */
    method Deposit(amount: real) returns (outcome: Outcome)
      requires Valid() && isSessionActive
      modifies currentAccount
      ensures Valid()
      ensures outcome == Done <==> amount > 0.0
      ensures outcome != Done ==> outcome == InvalidAmount && unchanged(currentAccount)
      ensures outcome == Done ==>
        && currentAccount.balance == old(currentAccount.balance) + amount
        && currentAccount.transactionHistory == old(currentAccount.transactionHistory)
             + [Transaction(Kind.Deposit, amount, currentAccount.accountNumber, None)]
        && currentAccount.hashedPin == old(currentAccount.hashedPin)
        && currentAccount.GuardOf() == old(currentAccount.GuardOf())
    {
      if amount <= 0.0 {
        return InvalidAmount;
      }
      var ok := currentAccount.Deposit(amount);
      outcome := if ok then Done else OperationFailed;
    }

    /** withdraw from the menu: non-positive amounts and overdrafts are refused first. */
    method Withdraw(amount: real) returns (outcome: Outcome)
      requires Valid() && isSessionActive
      modifies currentAccount
      ensures Valid()
      ensures outcome == InvalidAmount <==> amount <= 0.0
      ensures outcome == InsufficientFunds <==> 0.0 < amount && amount > old(currentAccount.balance)
      ensures outcome == Done <==> 0.0 < amount <= old(currentAccount.balance)
      ensures outcome != Done ==> unchanged(currentAccount)
      ensures outcome == Done ==>
        && currentAccount.balance == old(currentAccount.balance) - amount
        && currentAccount.transactionHistory == old(currentAccount.transactionHistory)
             + [Transaction(Kind.Withdrawal, amount, currentAccount.accountNumber, None)]
        && currentAccount.hashedPin == old(currentAccount.hashedPin)
        && currentAccount.GuardOf() == old(currentAccount.GuardOf())
    {
      if amount <= 0.0 {
        return InvalidAmount;
      }
      var available := currentAccount.GetBalance();
      if amount > available {
        return InsufficientFunds;
      }
      var ok := currentAccount.Withdraw(amount);
      outcome := if ok then Done else OperationFailed;
    }

    /**
     * transfer from the menu: the caller's own number and unknown numbers are
     * refused before any amount is read, then non-positive amounts and
     * overdrafts; only then does BankAccount.transfer run.
     */
    method TransferMoney(targetNumber: string, amount: real) returns (outcome: Outcome)
      requires Valid() && isSessionActive
      modifies currentAccount
      modifies if targetNumber in accounts then {accounts[targetNumber]} else {}
      ensures Valid()
      ensures outcome == SameAccount <==> targetNumber == currentAccount.accountNumber
      ensures outcome == TargetNotFound <==>
        targetNumber != currentAccount.accountNumber && targetNumber !in accounts
      ensures outcome == InvalidAmount <==>
        targetNumber != currentAccount.accountNumber && targetNumber in accounts && amount <= 0.0
      ensures outcome == InsufficientFunds <==>
        targetNumber != currentAccount.accountNumber && targetNumber in accounts
        && 0.0 < amount && amount > old(currentAccount.balance)
      ensures outcome != OperationFailed
      ensures outcome != Done ==>
        unchanged(currentAccount) && (targetNumber in accounts ==> unchanged(accounts[targetNumber]))
      ensures outcome == Done ==>
        var target := accounts[targetNumber];
        && target != currentAccount
        && currentAccount.balance == old(currentAccount.balance) - amount
        && target.balance == old(target.balance) + amount
        && currentAccount.balance + target.balance == old(currentAccount.balance) + old(target.balance)
        && currentAccount.transactionHistory == old(currentAccount.transactionHistory)
             + [Transaction(Kind.Transfer, amount, currentAccount.accountNumber, Some(targetNumber))]
        && target.transactionHistory == old(target.transactionHistory)
             + [Transaction(Kind.Deposit, amount, targetNumber, Some(currentAccount.accountNumber))]
    {
      if targetNumber == currentAccount.accountNumber {
        return SameAccount;
      }
      if targetNumber !in accounts {
        return TargetNotFound;
      }
      var target := accounts[targetNumber];
      if amount <= 0.0 {
        return InvalidAmount;
      }
      var available := currentAccount.GetBalance();
      if amount > available {
        return InsufficientFunds;
      }
      var ok := currentAccount.Transfer(target, amount);
      outcome := if ok then Done else OperationFailed;
    }

    /** showTransactionHistory: choice 1 shows the last five entries, choice 2 all of them. */
    method ShowTransactionHistory(choice: int) returns (shown: Option<seq<Transaction>>)
      requires Valid() && isSessionActive
      ensures choice == 1 ==> shown == Some(Recent(currentAccount.transactionHistory, RecentCount))
      ensures choice == 2 ==> shown == Some(currentAccount.transactionHistory)
      ensures choice != 1 && choice != 2 ==> shown == None
    {
      if choice == 1 {
        var recent := currentAccount.GetRecentTransactions(RecentCount);
        shown := Some(recent);
      } else if choice == 2 {
        var all := currentAccount.GetTransactionHistory();
        shown := Some(all);
      } else {
        shown := None;
      }
    }

    /**
     * changePin from the menu: the current PIN is validated (one attempt),
     * the new PIN must have a length() of at least four and be confirmed, and
     * then BankAccount.changePin validates the current PIN a second time.
     */
    method ChangePin(currentPin: string, newPin: string, confirmPin: string) returns (outcome: PinChange)
      requires Valid() && isSessionActive
      modifies currentAccount
      ensures Valid()
      ensures var matches := currentAccount.HashPin(currentPin) == old(currentAccount.hashedPin);
        && currentAccount.GuardOf() == Attempt(old(currentAccount.GuardOf()), matches).1
        && (outcome == IncorrectPin <==> !Attempt(old(currentAccount.GuardOf()), matches).0)
      ensures outcome == PinChanged <==>
        && currentAccount.HashPin(currentPin) == old(currentAccount.hashedPin)
        && !old(currentAccount.locked) && Utf16Length(newPin) >= 4 && newPin == confirmPin
      ensures outcome == PinChanged ==> currentAccount.hashedPin == currentAccount.HashPin(newPin)
      ensures outcome != PinChanged ==> currentAccount.hashedPin == old(currentAccount.hashedPin)
      ensures outcome != ChangeFailed
      ensures currentAccount.balance == old(currentAccount.balance)
      ensures currentAccount.transactionHistory == old(currentAccount.transactionHistory)
    {
      var valid := currentAccount.ValidatePin(currentPin);
      if !valid {
        return IncorrectPin;
      }
      if Utf16Length(newPin) < 4 {
        return PinTooShort;
      }
      if newPin != confirmPin {
        return PinMismatch;
      }
      var changed := currentAccount.ChangePin(currentPin, newPin);
      outcome := if changed then PinChanged else ChangeFailed;
    }
  }
}
