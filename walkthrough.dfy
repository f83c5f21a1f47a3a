/**
 * Sessions on a freshly started ATM with the two sample accounts, driven
 * through the same operations the menu offers.
 */
module Walkthrough {
  import opened Lockout
  import opened PinDigest
  import opened Accounts
  import opened Machine

  /**
   * John Doe logs in with PIN 1234, deposits 100, is refused a withdrawal of
   * 6000, then transfers his whole balance of 5100 to Jane Smith.
   */
  method SampleSession(digest: string -> seq<Byte>)
    returns (login: LoginOutcome, deposit: Outcome, withdrawal: Outcome, transfer: Outcome,
             johnBalance: real, janeBalance: real)
    ensures login == LoggedIn && deposit == Done && withdrawal == InsufficientFunds && transfer == Done
    ensures johnBalance == 0.0 && janeBalance == 12600.0
  {
    var atm, john, jane;
    atm, john, jane, login := SampleLogin(digest);
    deposit := atm.Deposit(100.0);
    assert john.balance == 5100.0 && jane.balance == 7500.0;
    withdrawal := atm.Withdraw(6000.0);
    assert john.balance == 5100.0 && jane.balance == 7500.0;
    transfer := atm.TransferMoney("789012", 5100.0);
    johnBalance := john.balance;
    janeBalance := jane.balance;
  }

  /** A fresh ATM on which John Doe has just logged in with PIN 1234. */
  method SampleLogin(digest: string -> seq<Byte>) returns (atm: ATM, john: BankAccount, jane: BankAccount, login: LoginOutcome)
    ensures fresh(atm) && fresh(john) && fresh(jane) && john != jane
    ensures atm.Valid() && atm.isSessionActive && atm.currentAccount == john && login == LoggedIn
    ensures atm.accounts.Keys == {"123456", "789012"}
    ensures atm.accounts["123456"] == john && atm.accounts["789012"] == jane
    ensures john.accountNumber == "123456" && jane.accountNumber == "789012"
    ensures john.balance == 5000.0 && jane.balance == 7500.0
    ensures john.digest == digest && john.hashedPin == john.HashPin("1234") && john.GuardOf() == Fresh
  {
    atm, john, jane := SampleAtm(digest);
    assert PinOutcomes(john, ["1234"]) == [true];
    assert Login(Fresh, [true]).0;
    login := atm.AuthenticateUser("123456", false, ["1234"]);
  }

  /** A freshly started ATM, with nothing stored, holding the two sample accounts. */
  method SampleAtm(digest: string -> seq<Byte>) returns (atm: ATM, john: BankAccount, jane: BankAccount)
    ensures fresh(atm) && fresh(john) && fresh(jane) && john != jane
    ensures atm.Valid() && !atm.isSessionActive && atm.digest == digest
    ensures atm.accounts.Keys == {"123456", "789012"}
    ensures atm.accounts["123456"] == john && atm.accounts["789012"] == jane
    ensures john.accountNumber == "123456" && jane.accountNumber == "789012"
    ensures john.balance == 5000.0 && jane.balance == 7500.0
    ensures john.digest == digest && john.hashedPin == john.HashPin("1234") && john.GuardOf() == Fresh
  {
    atm := new ATM(digest, map[]);
    john := atm.accounts["123456"];
    jane := atm.accounts["789012"];
  }

  /**
   * Three wrong PINs at login lock John Doe's account, and the next login
   * is refused outright unless an administrator unlocks it.
   */
  method LockoutSession(digest: string -> seq<Byte>, wrongPin: string)
    returns (first: LoginOutcome, second: LoginOutcome)
    requires digest(wrongPin) != digest("1234")
    ensures first == PinRejected && second == LockedOut
  {
    var atm, john;
    atm, john, first := ThreeWrongPins(digest, wrongPin);
    second := atm.AuthenticateUser("123456", false, ["1234"]);
  }

  /** A fresh ATM on which three wrong PINs were entered for John Doe's account. */
  method ThreeWrongPins(digest: string -> seq<Byte>, wrongPin: string)
    returns (atm: ATM, john: BankAccount, first: LoginOutcome)
    requires digest(wrongPin) != digest("1234")
    ensures fresh(atm) && fresh(john)
    ensures atm.Valid() && !atm.isSessionActive
    ensures "123456" in atm.accounts && atm.accounts["123456"] == john
    ensures john.locked && first == PinRejected
  {
    var jane;
    atm, john, jane := SampleAtm(digest);
    var pins := [wrongPin, wrongPin, wrongPin];
    WrongPinOutcomes(john, wrongPin, "1234");
    ThreeWrongPinsAtLoginLock();
    first := atm.AuthenticateUser("123456", false, pins);
  }

  /**
   * Three wrong current PINs in the change-PIN menu lock John Doe's account,
   * yet the session stays open and the next deposit goes through: no menu
   * operation looks at the lock flag.
   */
  method LockedMidSession(digest: string -> seq<Byte>, wrongPin: string)
    returns (attempts: seq<PinChange>, deposit: Outcome, johnLocked: bool, johnBalance: real)
    requires digest(wrongPin) != digest("1234")
    ensures attempts == [IncorrectPin, IncorrectPin, IncorrectPin]
    ensures johnLocked && deposit == Done && johnBalance == 5100.0
  {
    var atm, john, jane, login := SampleLogin(digest);
    HexOfInjective(digest(wrongPin), digest("1234"));
    var first := WrongCurrentPin(atm, wrongPin);
    var second := WrongCurrentPin(atm, wrongPin);
    var third := WrongCurrentPin(atm, wrongPin);
    attempts := [first, second, third];
    deposit := atm.Deposit(100.0);
    johnLocked := john.locked;
    johnBalance := john.balance;
  }

  /** A wrong current PIN in the change-PIN menu costs one attempt and leaves the session open. */
  method WrongCurrentPin(atm: ATM, wrongPin: string) returns (outcome: PinChange)
    requires atm.Valid() && atm.isSessionActive
    requires atm.currentAccount.HashPin(wrongPin) != atm.currentAccount.hashedPin
    modifies atm.currentAccount
    ensures atm.Valid() && atm.isSessionActive && atm.currentAccount == old(atm.currentAccount)
    ensures atm.currentAccount.GuardOf() == Attempt(old(atm.currentAccount.GuardOf()), false).1
    ensures atm.currentAccount.hashedPin == old(atm.currentAccount.hashedPin)
    ensures atm.currentAccount.balance == old(atm.currentAccount.balance)
    ensures outcome == IncorrectPin
  {
    outcome := atm.ChangePin(wrongPin, "4321", "4321");
  }

  /** A PIN whose digest differs from the stored PIN's is rejected at each of the three tries. */
  lemma WrongPinOutcomes(account: BankAccount, wrongPin: string, pin: string)
    requires account.digest(wrongPin) != account.digest(pin) && account.hashedPin == account.HashPin(pin)
    ensures PinOutcomes(account, [wrongPin, wrongPin, wrongPin]) == [false, false, false]
  {
    HexOfInjective(account.digest(wrongPin), account.digest(pin));
  }
}
