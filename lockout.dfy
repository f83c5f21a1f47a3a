/**
 * The PIN lockout state machine of BankAccount (failedPinAttempts and
 * locked) as values, and the three-attempt login loop of
 * ATM.authenticateUser expressed over the outcomes of the PIN comparisons.
 * The class BankAccount and the class ATM are proved to follow these
 * functions step by step.
 */
module Lockout {

  /** Failed attempts that lock an account. */
  const MaxAttempts := 3

  /** The lockout part of an account: the failed-attempt counter and the lock flag. */
  datatype Guard = Guard(failed: int, locked: bool)

  /** The state the BankAccount constructor and unlockAccount leave behind. */
  const Fresh := Guard(0, false)

  /** The account is locked exactly when the counter has reached the limit. */
  predicate Consistent(g: Guard)
  {
    0 <= g.failed <= MaxAttempts && (g.locked <==> g.failed == MaxAttempts)
  }

  /**
   * validatePin, given whether the hash of the entered PIN equals the stored
   * one: the returned flag and the new counter and lock flag.
   */
  function Attempt(g: Guard, matches: bool): (r: (bool, Guard))
    ensures r.0 <==> !g.locked && matches
    ensures g.locked ==> r.1 == g
    ensures r.0 ==> r.1 == Fresh
    ensures !g.locked && !matches ==> r.1.failed == g.failed + 1
    ensures Consistent(g) ==> Consistent(r.1)
  {
    if g.locked then (false, g)
    else if matches then (true, g.(failed := 0))
    else
      var failed := g.failed + 1;
      (false, g.(failed := failed, locked := if failed >= MaxAttempts then true else g.locked))
  }

  /** unlockAccount. */
  function Unlock(g: Guard): (r: Guard)
    ensures Consistent(r) && !r.locked && r.failed == 0
  {
    g.(locked := false, failed := 0)
  }

  /** The guard after a series of validatePin calls with the given comparison outcomes. */
  function Run(g: Guard, outcomes: seq<bool>): Guard
    decreases |outcomes|
  {
    if outcomes == [] then g else Run(Attempt(g, outcomes[0]).1, outcomes[1..])
  }

  /** The lock invariant holds after any series of attempts from a consistent state. */
  lemma {:induction false} RunKeepsConsistent(g: Guard, outcomes: seq<bool>)
    requires Consistent(g)
    ensures Consistent(Run(g, outcomes))
    decreases |outcomes|
  {
    if outcomes != [] {
      RunKeepsConsistent(Attempt(g, outcomes[0]).1, outcomes[1..]);
    }
  }

  /** A locked account stays as it is whatever PINs are tried, the right one included. */
  lemma {:induction false} LockedAbsorbs(g: Guard, outcomes: seq<bool>)
    requires g.locked
    ensures Run(g, outcomes) == g
  {
    if outcomes != [] {
      LockedAbsorbs(g, outcomes[1..]);
    }
  }

  function Failures(n: nat): (s: seq<bool>)
    ensures |s| == n && forall i :: 0 <= i < n ==> !s[i]
  {
    seq(n, _ => false)
  }

  /**
   * From an unlocked consistent state, n consecutive wrong PINs lock the
   * account exactly when they bring the counter to the limit.
   */
  lemma {:induction false} FailuresLock(g: Guard, n: nat)
    requires Consistent(g) && !g.locked
    ensures Run(g, Failures(n)).locked <==> g.failed + n >= MaxAttempts
    decreases n
  {
    if n > 0 {
      var next := Attempt(g, false).1;
      assert Failures(n)[1..] == Failures(n - 1);
      if next.locked {
        LockedAbsorbs(next, Failures(n - 1));
      } else {
        FailuresLock(next, n - 1);
      }
    }
  }

  /**
   * The PIN loop of authenticateUser over the comparison outcomes of the
   * PINs it reads: it stops at the first accepted PIN.  The flag says whether
   * a session was opened.
   */
  function Login(g: Guard, outcomes: seq<bool>): (r: (bool, Guard))
    ensures r.0 ==> r.1 == Fresh
    decreases |outcomes|
  {
    if outcomes == [] then (false, g)
    else
      var (ok, next) := Attempt(g, outcomes[0]);
      if ok then (true, next) else Login(next, outcomes[1..])
  }

  /** The login loop opens a session exactly when some PIN matches before the account is locked. */
  lemma {:induction false} LoginSucceedsIffMatchBeforeLock(g: Guard, outcomes: seq<bool>)
    requires Consistent(g)
    ensures Login(g, outcomes).0 <==>
      exists k :: 0 <= k < |outcomes| && outcomes[k] && !Run(g, outcomes[..k]).locked
    decreases |outcomes|
  {
    if outcomes != [] {
      var next := Attempt(g, outcomes[0]).1;
      LoginSucceedsIffMatchBeforeLock(next, outcomes[1..]);
      if outcomes[0] && !g.locked {
        assert outcomes[..0] == [];
      } else {
        if Login(g, outcomes).0 {
          var k :| 0 <= k < |outcomes[1..]| && outcomes[1..][k] && !Run(next, outcomes[1..][..k]).locked;
          assert outcomes[..k + 1][1..] == outcomes[1..][..k];
        }
        if exists k :: 0 <= k < |outcomes| && outcomes[k] && !Run(g, outcomes[..k]).locked {
          var k :| 0 <= k < |outcomes| && outcomes[k] && !Run(g, outcomes[..k]).locked;
          assert Run(g, outcomes[..0]) == g;
          if k > 0 {
            assert outcomes[..k][1..] == outcomes[1..][..k - 1];
          }
        }
      }
    }
  }

  /** Three wrong PINs at login, starting from an account with no failures, leave it locked. */
  lemma ThreeWrongPinsAtLoginLock()
    ensures Login(Fresh, [false, false, false]) == (false, Guard(MaxAttempts, true))
  {
  }
}
