/**
 * The sample data and the flag-guarded initialisation of the store. The sample records' ids and
 * dates are generated once, when the module loads; here they are the fields of `SampleIds`.
 */
module Seed {
  import opened Types
  import opened Ledger
  import opened Storage

  /** The values `generateUID()` and `new Date(...).toISOString()` produced when the module loaded. */
  datatype SampleIds = SampleIds(
    alice: string, bob: string, charlie: string,
    coffee: string, movie: string, bookstore: string,
    tx1: string, tx2: string, tx3: string, tx4: string, tx5: string,
    sevenDaysAgo: string, threeDaysAgo: string, fiveDaysAgo: string, oneDayAgo: string, twoDaysAgo: string)

  const AdminId := "admin-001"

  /** The generated user ids differ from each other and from the fixed admin id. */
  predicate DistinctUserIds(ids: SampleIds) {
    && ids.alice != ids.bob && ids.alice != ids.charlie && ids.bob != ids.charlie
    && ids.alice != AdminId && ids.bob != AdminId && ids.charlie != AdminId
  }

  /** Three students and one admin. */
  function SampleUsers(ids: SampleIds): seq<User> {
    [ User(ids.alice, "Alice Johnson", "STU001", STUDENT, "alice@student.com", "+1234567890", 150, "student123"),
      User(ids.bob, "Bob Smith", "STU002", STUDENT, "bob@student.com", "+1234567891", 200, "student123"),
      User(ids.charlie, "Charlie Davis", "STU003", STUDENT, "charlie@student.com", "+1234567892", 75, "student123"),
      User(AdminId, "Admin User", "ADMIN001", ADMIN, "admin@gmail.com", "+1234567899", 0, "admin123") ]
  }

  function SampleRewards(ids: SampleIds): seq<Reward> {
    [ Reward(ids.coffee, "Free Coffee Voucher", 50, 20, "Redeem for a free coffee at the campus café"),
      Reward(ids.movie, "Movie Ticket", 100, 10, "Free movie ticket at local cinema"),
      Reward(ids.bookstore, "Book Store Discount", 75, 15, "20% discount voucher at campus bookstore") ]
  }

  /** Two earnings for Alice, two for Bob, one for Charlie. */
  function SampleTransactions(ids: SampleIds): seq<Transaction> {
    [ Transaction(ids.tx1, ids.alice, 50, "Attended workshop on AI", ids.sevenDaysAgo, EARN),
      Transaction(ids.tx2, ids.alice, 100, "Volunteered at campus event", ids.threeDaysAgo, EARN),
      Transaction(ids.tx3, ids.bob, 150, "Won coding competition", ids.fiveDaysAgo, EARN),
      Transaction(ids.tx4, ids.bob, 50, "Submitted project on time", ids.oneDayAgo, EARN),
      Transaction(ids.tx5, ids.charlie, 75, "Participated in study group", ids.twoDaysAgo, EARN) ]
  }

  /** Every sample reward costs something and has stock. */
  lemma SampleRewardsWellFormed(ids: SampleIds)
    ensures forall j :: 0 <= j < |SampleRewards(ids)| ==>
      SampleRewards(ids)[j].cost > 0 && SampleRewards(ids)[j].quantity >= 0
  {
  }

  /** Every sample transaction is an earning, typed exactly as recording it would type it. */
  lemma SampleTransactionsAreEarnings(ids: SampleIds)
    ensures forall k :: 0 <= k < |SampleTransactions(ids)| ==>
      SampleTransactions(ids)[k].amount > 0
      && SampleTransactions(ids)[k].txType == TypeFor(SampleTransactions(ids)[k].amount)
  {
  }

  /** What one transaction contributes to the balance of `uid`. */
  function Share(t: Transaction, uid: string): int {
    if t.userId == uid then t.amount else 0
  }

  lemma BalanceOfOne(t: Transaction, uid: string)
    ensures Balance([t], uid) == Share(t, uid)
  {
    BalanceAfterAppend([], t, uid);
    assert [] + [t] == [t];
  }

  /** The balance over a ledger of five transactions, one share at a time. */
  lemma BalanceOfFive(t0: Transaction, t1: Transaction, t2: Transaction, t3: Transaction, t4: Transaction, uid: string)
    ensures Balance([t0] + [t1] + [t2] + [t3] + [t4], uid)
      == Share(t0, uid) + Share(t1, uid) + Share(t2, uid) + Share(t3, uid) + Share(t4, uid)
  {
    BalanceOfOne(t0, uid);
    BalanceAfterAppend([t0], t1, uid);
    BalanceAfterAppend([t0] + [t1], t2, uid);
    BalanceAfterAppend([t0] + [t1] + [t2], t3, uid);
    BalanceAfterAppend([t0] + [t1] + [t2] + [t3], t4, uid);
  }

  /** Each sample user's balance under the sample ledger. */
  lemma SampleBalances(ids: SampleIds, uid: string)
    ensures Balance(SampleTransactions(ids), uid) ==
      (if uid == ids.alice then 50 + 100 else 0)
      + (if uid == ids.bob then 150 + 50 else 0)
      + (if uid == ids.charlie then 75 else 0)
  {
    var txs := SampleTransactions(ids);
    BalanceOfFive(txs[0], txs[1], txs[2], txs[3], txs[4], uid);
    assert txs == [txs[0]] + [txs[1]] + [txs[2]] + [txs[3]] + [txs[4]];
  }

  /** The sample users' ids are pairwise distinct. */
  lemma SampleUserIdsUnique(ids: SampleIds)
    requires DistinctUserIds(ids)
    ensures UniqueIds(SampleUsers(ids))
  {
    var users := SampleUsers(ids);
    assert users[0].id == ids.alice && users[1].id == ids.bob;
    assert users[2].id == ids.charlie && users[3].id == AdminId;
  }

  /**
   * The sample data satisfies the ledger invariant: 150 = 50 + 100, 200 = 150 + 50, 75 = 75 and
   * the admin has no transactions and 0 points.
   */
  lemma SampleDataConsistent(ids: SampleIds)
    requires DistinctUserIds(ids)
    ensures UniqueIds(SampleUsers(ids))
    ensures Consistent(SampleUsers(ids), SampleTransactions(ids))
  {
    SampleUserIdsUnique(ids);
    var users := SampleUsers(ids);
    var txs := SampleTransactions(ids);
    forall i | 0 <= i < |users|
      ensures users[i].points == Balance(txs, users[i].id)
    {
      SampleBalances(ids, users[i].id);
    }
  }

  /** What a first `seedData` writes: the sample lists in both user keys, rewards, ledger and flag. */
  function Seeded(s: StoreState, ids: SampleIds): (r: StoreState)
    ensures r.dwUsers == r.fbUsers == SampleUsers(ids)
    ensures r.dwRewards == SampleRewards(ids) && r.dwTransactions == SampleTransactions(ids)
    ensures r.dwSeeded == Some("true")
    ensures r.dwPointRequests == s.dwPointRequests
    ensures r.fbCurrentUser == s.fbCurrentUser && r.fbSession == s.fbSession && r.legacyCurrentUser == s.legacyCurrentUser
  {
    s.(dwUsers := SampleUsers(ids), fbUsers := SampleUsers(ids), dwRewards := SampleRewards(ids),
       dwTransactions := SampleTransactions(ids), dwSeeded := Some("true"))
  }

  /** `seedData` as a state transformer: nothing happens once the flag is the string "true". */
  function SeedStep(s: StoreState, ids: SampleIds): StoreState {
    if s.dwSeeded == Some("true") then s else Seeded(s, ids)
  }

  /** Seeding twice has the same effect as seeding once. */
  lemma SeedIdempotent(s: StoreState, ids: SampleIds)
    ensures SeedStep(SeedStep(s, ids), ids) == SeedStep(s, ids)
  {
  }

  /** Whatever the store held before, after seeding the ledger invariant holds for `dw_users`. */
  lemma SeededStateConsistent(s: StoreState, ids: SampleIds)
    requires DistinctUserIds(ids)
    requires s.dwSeeded == Some("true") ==> Consistent(s.dwUsers, s.dwTransactions)
    ensures Consistent(SeedStep(s, ids).dwUsers, SeedStep(s, ids).dwTransactions)
  {
    if s.dwSeeded != Some("true") {
      SampleDataConsistent(ids);
    }
  }

  /** `seedData`: writes the sample data unless the store is already marked as seeded. */
  method SeedData(store: LocalStore, ids: SampleIds)
    modifies store`dwUsers, store`fbUsers, store`dwRewards, store`dwTransactions, store`dwSeeded
    ensures store.Snapshot() == SeedStep(old(store.Snapshot()), ids)
  {
    var alreadySeeded := store.dwSeeded;
    if alreadySeeded == Some("true") {
      return;
    }
    store.dwUsers := SampleUsers(ids);
    store.fbUsers := SampleUsers(ids);
    store.dwRewards := SampleRewards(ids);
    store.dwTransactions := SampleTransactions(ids);
    store.dwSeeded := Some("true");
  }

  /**
   * `resetData`: removes every `dw_*` and `fb_*` key and the legacy `currentUser`, then seeds.
   * The result is the same whatever the store held: the sample data, no point requests, no session.
   */
  method ResetData(store: LocalStore, ids: SampleIds)
    modifies store
    ensures store.Snapshot() == Seeded(Cleared, ids)
    ensures store.dwPointRequests == [] && store.fbCurrentUser.None? && store.fbSession.None?
    ensures DistinctUserIds(ids) ==> Consistent(store.dwUsers, store.dwTransactions)
  {
    store.dwUsers := [];
    store.dwRewards := [];
    store.dwTransactions := [];
    store.dwPointRequests := [];
    store.dwSeeded := None;
    store.legacyCurrentUser := None;
    store.fbUsers := [];
    store.fbCurrentUser := None;
    store.fbSession := None;
    SeedData(store, ids);
    if DistinctUserIds(ids) {
      SampleDataConsistent(ids);
    }
  }
}
