/**
 * The points ledger: how a transaction is typed, what a user's balance should be,
 * and the list update through which a recorded transaction credits its user.
 * The invariant is that every stored user's `points` is the sum of the amounts of
 * that user's transactions.
 */
module Ledger {
  import opened Types
  import opened Collections

  /** The transaction type recorded for an amount: only a strictly positive amount earns. */
  function TypeFor(amount: int): (t: TxType)
    ensures t == EARN <==> amount > 0
    ensures t == REDEEM <==> amount <= 0
  {
    if amount > 0 then EARN else REDEEM
  }

  function SumAmounts(txs: seq<Transaction>): int {
    if txs == [] then 0 else SumAmounts(txs[..|txs| - 1]) + txs[|txs| - 1].amount
  }

  /** The balance the ledger implies: the sum over `getTransactionsByUser(uid)`. */
  function Balance(txs: seq<Transaction>, uid: string): int {
    SumAmounts(TransactionsByUser(txs, uid))
  }

  predicate UniqueIds(users: seq<User>) {
    forall i, j :: 0 <= i < j < |users| ==> users[i].id != users[j].id
  }

  /** Every stored user's cached `points` equals the balance its transactions imply. */
  predicate Consistent(users: seq<User>, txs: seq<Transaction>) {
    forall i :: 0 <= i < |users| ==> users[i].points == Balance(txs, users[i].id)
  }

  /**
   * The user list after `createTransaction(uid, amount, ...)`: when `getUserById` finds the user,
   * `updateUser(uid, { points: user.points + amount })`; otherwise the list as it was.
   */
  function Credit(users: seq<User>, uid: string, amount: int): (r: seq<User>)
    ensures |r| == |users|
    ensures GetUserById(users, uid).None? ==> r == users
  {
    match GetUserById(users, uid)
    case None => users
    case Some(u) => UpdatedUsers(users, uid, PointsUpdate(u.points + amount))
  }

  /** Appending one transaction moves exactly its own user's balance, by exactly its amount. */
  lemma {:induction false} BalanceAfterAppend(txs: seq<Transaction>, t: Transaction, uid: string)
    ensures Balance(txs + [t], uid) == Balance(txs, uid) + (if t.userId == uid then t.amount else 0)
  {
    var all := txs + [t];
    assert all[..|all| - 1] == txs;
    var mine := TransactionsByUser(txs, uid);
    if t.userId == uid {
      assert TransactionsByUser(all, uid) == mine + [t];
      assert (mine + [t])[..|mine + [t]| - 1] == mine;
    } else {
      assert TransactionsByUser(all, uid) == mine;
    }
  }

  /**
   * With unique ids, crediting raises the named user's points by exactly `amount`, keeps
   * every other field of that user, and leaves every other user as it was; for an
   * unknown id nothing changes.
   */
  lemma CreditEffect(users: seq<User>, uid: string, amount: int)
    requires UniqueIds(users)
    ensures forall j :: 0 <= j < |users| ==>
      Credit(users, uid, amount)[j] ==
        if users[j].id == uid then users[j].(points := users[j].points + amount) else users[j]
  {
    var r := Credit(users, uid, amount);
    match UserIndex(users, uid)
    case None =>
    case Some(i) =>
      forall j | 0 <= j < |users|
        ensures r[j] == if users[j].id == uid then users[j].(points := users[j].points + amount) else users[j]
      {
        if users[j].id == uid {
          assert j == i;
        }
      }
  }

  lemma CreditKeepsUniqueIds(users: seq<User>, uid: string, amount: int)
    requires UniqueIds(users)
    ensures UniqueIds(Credit(users, uid, amount))
  {
  }

  /**
   * Recording a transaction (append it, credit its user) preserves the ledger invariant,
   * whether or not its user is stored.
   */
  lemma RecordPreservesConsistency(users: seq<User>, txs: seq<Transaction>, t: Transaction)
    requires UniqueIds(users) && Consistent(users, txs)
    ensures Consistent(Credit(users, t.userId, t.amount), txs + [t])
  {
    var r := Credit(users, t.userId, t.amount);
    CreditEffect(users, t.userId, t.amount);
    forall i | 0 <= i < |r|
      ensures r[i].points == Balance(txs + [t], r[i].id)
    {
      BalanceAfterAppend(txs, t, users[i].id);
    }
  }

  /** After a credit, the user found under `uid` is the one found before, with `points + amount`. */
  lemma CreditedUser(users: seq<User>, uid: string, amount: int)
    requires GetUserById(users, uid).Some?
    ensures var before := GetUserById(users, uid).value;
      GetUserById(Credit(users, uid, amount), uid) == Some(before.(points := before.points + amount))
  {
    var before := GetUserById(users, uid).value;
    var credited := Credit(users, uid, amount);
    var i := UserIndex(users, uid).value;
    assert UserIndex(credited, uid) == Some(i) by {
      assert credited == users[i := before.(points := before.points + amount)];
      UserIndexFollowsIds(users, credited, uid);
    }
  }

  /**
   * The second balance write of `adjustUserPoints` is a no-op: after crediting `amount`,
   * writing `user.points + amount` (from the user read before the credit) changes nothing.
   */
  lemma AdjustAppliesOnce(users: seq<User>, uid: string, amount: int)
    requires GetUserById(users, uid).Some?
    ensures var before := GetUserById(users, uid).value;
      var credited := Credit(users, uid, amount);
      UpdatedUsers(credited, uid, PointsUpdate(before.points + amount)) == credited
  {
    var before := GetUserById(users, uid).value;
    var credited := Credit(users, uid, amount);
    CreditedUser(users, uid, amount);
    var i := UserIndex(credited, uid).value;
    PointsUpdateToCurrentIsNoOp(credited[i]);
    assert credited[i := credited[i]] == credited;
  }

  /** Adding a user whose balance is already right (a new account with no history) keeps the invariant. */
  lemma AddUserPreservesConsistency(users: seq<User>, txs: seq<Transaction>, u: User)
    requires Consistent(users, txs)
    requires u.points == Balance(txs, u.id)
    ensures Consistent(users + [u], txs)
  {
  }

  /** A user with no transactions has balance 0, so an account created with 0 points fits the ledger. */
  lemma {:induction false} NoTransactionsZeroBalance(txs: seq<Transaction>, uid: string)
    requires forall k :: 0 <= k < |txs| ==> txs[k].userId != uid
    ensures Balance(txs, uid) == 0
  {
    if txs != [] {
      var init := txs[..|txs| - 1];
      NoTransactionsZeroBalance(init, uid);
      assert txs == init + [txs[|txs| - 1]];
      BalanceAfterAppend(init, txs[|txs| - 1], uid);
    }
  }
}
