/**
 * The immutable Transaction record of the ATM and the read-only views of an
 * account's append-only transaction history.
 */
module Transactions {
  import opened Base

  /** Transaction.Type. */
  datatype Kind = Deposit | Withdrawal | Transfer

  /**
   * One history entry.  The two Java constructors differ only in whether the
   * target account number is set; an absent target is None.  The timestamp
   * is not modelled.
   */
  datatype Transaction = Transaction(kind: Kind, amount: real, source: string, target: Option<string>)

  /** What an entry does to the balance of the account whose history holds it. */
  function Signed(t: Transaction): real
  {
    if t.kind == Deposit then t.amount else -t.amount
  }

  /** The net effect on the balance of a whole history, oldest entry first. */
  function Net(history: seq<Transaction>): real
  {
    if history == [] then 0.0 else Signed(history[0]) + Net(history[1..])
  }

  /** Appending one entry moves the net effect by exactly that entry's signed amount. */
  lemma {:induction false} NetAppend(history: seq<Transaction>, t: Transaction)
    ensures Net(history + [t]) == Net(history) + Signed(t)
  {
    if history != [] {
      assert (history + [t])[1..] == history[1..] + [t];
      NetAppend(history[1..], t);
    }
  }

  /**
   * getRecentTransactions(count): the whole history when it has at most count
   * entries, otherwise its last count entries, in their original order.
   */
  function Recent(history: seq<Transaction>, count: nat): (r: seq<Transaction>)
    ensures |r| == Min(|history|, count)
    ensures r == history[|history| - |r|..]
  {
    if |history| <= count then history else history[|history| - count..]
  }

  /** Asking again for the same number of recent entries returns the same entries. */
  lemma RecentIdempotent(history: seq<Transaction>, count: nat)
    ensures Recent(Recent(history, count), count) == Recent(history, count)
  {
  }

  /** After an append, the newest entry is the last of any non-empty recent view. */
  lemma RecentAfterAppend(history: seq<Transaction>, t: Transaction, count: nat)
    requires count >= 1
    ensures var r := Recent(history + [t], count);
      r != [] && r[|r| - 1] == t && r[..|r| - 1] == Recent(history, count - 1)
  {
    var h := history + [t];
    var r := Recent(h, count);
    assert r[..|r| - 1] == history[|history| - Min(|history|, count - 1)..];
  }
}
