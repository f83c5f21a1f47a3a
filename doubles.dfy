/**
 * The amount guards of the ATM as Java evaluates them on doubles.  An amount
 * comes from Double.parseDouble, which also accepts "NaN", "Infinity" and
 * "-Infinity"; every comparison with NaN is false, so a guard written as
 * "refuse when amount <= 0" lets NaN through.  Finite values are taken as
 * exact reals; rounding and overflow to infinity are not modelled here.
 */
module Doubles {

  datatype Double = Finite(value: real) | PositiveInfinity | NegativeInfinity | NaN

  const Zero := Finite(0.0)

  /** Java's < on doubles: an ordering of the extended reals, false whenever NaN is involved. */
  predicate Less(a: Double, b: Double)
  {
    match (a, b)
    case (NaN, _) => false
    case (_, NaN) => false
    case (Finite(x), Finite(y)) => x < y
    case (NegativeInfinity, _) => b != NegativeInfinity
    case (_, PositiveInfinity) => a != PositiveInfinity
    case _ => false
  }

  /** Java's <= on doubles: less, or equal and not NaN. */
  predicate LessOrEqual(a: Double, b: Double)
  {
    Less(a, b) || (a == b && a != NaN)
  }

  /** Java's + on doubles: NaN absorbs everything, opposite infinities give NaN. */
  function Add(a: Double, b: Double): Double
  {
    if a == NaN || b == NaN then NaN
    else if a.Finite? && b.Finite? then Finite(a.value + b.value)
    else if a.Finite? then b
    else if b.Finite? || a == b then a
    else NaN
  }

  function Negate(a: Double): Double
  {
    match a
    case Finite(x) => Finite(-x)
    case PositiveInfinity => NegativeInfinity
    case NegativeInfinity => PositiveInfinity
    case NaN => NaN
  }

  /** Java's - on doubles. */
  function Sub(a: Double, b: Double): Double
  {
    Add(a, Negate(b))
  }

  /** On finite values the comparisons are those of the reals. */
  lemma ComparisonsOnFinite(x: real, y: real)
    ensures Less(Finite(x), Finite(y)) <==> x < y
    ensures LessOrEqual(Finite(x), Finite(y)) <==> x <= y
  {
  }

  /** NaN is neither below, above nor equal to anything. */
  lemma NaNIsUnordered(d: Double)
    ensures !Less(NaN, d) && !Less(d, NaN)
    ensures !LessOrEqual(NaN, d) && !LessOrEqual(d, NaN)
  {
  }

  // ----- The guards as written -----

  /**
   * withdraw and transfer, in BankAccount and in the menu: go ahead unless
   * amount <= 0 or amount > balance.
   */
  predicate WithdrawalProceeds(amount: Double, balance: Double)
  {
    !LessOrEqual(amount, Zero) && !Less(balance, amount)
  }

  /** deposit, in BankAccount and in the menu: go ahead unless amount <= 0. */
  predicate DepositProceeds(amount: Double)
  {
    !LessOrEqual(amount, Zero)
  }

  /** createNewAccount: ask again while the initial deposit is below 100. */
  predicate OpeningDepositAccepted(deposit: Double)
  {
    !Less(deposit, Finite(100.0))
  }

  /** A NaN withdrawal passes both tests and turns the balance into NaN. */
  lemma NaNWithdrawalPoisonsBalance(balance: real)
    ensures WithdrawalProceeds(NaN, Finite(balance))
    ensures Sub(Finite(balance), NaN) == NaN
    ensures !WithdrawalAllowed(NaN, balance)
  {
  }

  /** A NaN or infinite deposit passes the test and the balance stops being a number of dollars. */
  lemma NonFiniteDepositsAccepted(balance: real)
    ensures DepositProceeds(NaN) && Add(Finite(balance), NaN) == NaN
    ensures DepositProceeds(PositiveInfinity) && Add(Finite(balance), PositiveInfinity) == PositiveInfinity
    ensures !DepositAllowed(NaN) && !DepositAllowed(PositiveInfinity)
  {
  }

  /** A NaN or infinite opening deposit ends the prompt loop and becomes the new account's balance. */
  lemma NonFiniteOpeningDepositsAccepted()
    ensures OpeningDepositAccepted(NaN) && OpeningDepositAccepted(PositiveInfinity)
    ensures !OpeningDepositAllowed(NaN) && !OpeningDepositAllowed(PositiveInfinity)
  {
  }

  // ----- The guards as intended -----

  /** A withdrawal or transfer is a positive number of dollars not above the balance. */
  predicate WithdrawalAllowed(amount: Double, balance: real)
  {
    amount.Finite? && 0.0 < amount.value <= balance
  }

  /** A deposit is a positive number of dollars. */
  predicate DepositAllowed(amount: Double)
  {
    amount.Finite? && amount.value > 0.0
  }

  /** An opening deposit is a number of dollars, at least 100. */
  predicate OpeningDepositAllowed(deposit: Double)
  {
    deposit.Finite? && deposit.value >= 100.0
  }

  /**
   * The written withdrawal guard lets through exactly the intended amounts
   * and NaN: an infinite amount is refused, as intended.
   */
  lemma WithdrawalGuardAdmitsOnlyNaNBeyondIntent(amount: Double, balance: real)
    ensures WithdrawalProceeds(amount, Finite(balance)) <==> WithdrawalAllowed(amount, balance) || amount == NaN
  {
  }

  /** The written deposit guard lets through exactly the intended amounts, NaN and +Infinity. */
  lemma DepositGuardAdmitsNonFinite(amount: Double)
    ensures DepositProceeds(amount) <==> DepositAllowed(amount) || amount == NaN || amount == PositiveInfinity
  {
  }

  /** The written opening-deposit loop stops on exactly the intended amounts, NaN and +Infinity. */
  lemma OpeningGuardAdmitsNonFinite(deposit: Double)
    ensures OpeningDepositAccepted(deposit) <==> OpeningDepositAllowed(deposit) || deposit == NaN || deposit == PositiveInfinity
  {
  }

  /**
   * On finite amounts the intended guards are the ones the account and ATM
   * methods check on reals, and an allowed withdrawal leaves a balance that
   * is a non-negative number.
   */
  lemma IntendedGuardsOnFinite(amount: real, balance: real)
    ensures WithdrawalAllowed(Finite(amount), balance) <==> 0.0 < amount <= balance
    ensures DepositAllowed(Finite(amount)) <==> amount > 0.0
    ensures OpeningDepositAllowed(Finite(amount)) <==> amount >= 100.0
    ensures WithdrawalAllowed(Finite(amount), balance) ==>
      Sub(Finite(balance), Finite(amount)) == Finite(balance - amount) && balance - amount >= 0.0
  {
  }

  /** An allowed amount keeps a finite balance finite, whichever way it moves. */
  lemma AllowedAmountsKeepBalanceFinite(amount: Double, balance: real)
    ensures WithdrawalAllowed(amount, balance) ==> Sub(Finite(balance), amount).Finite?
    ensures DepositAllowed(amount) ==> Add(Finite(balance), amount).Finite?
  {
  }
}
