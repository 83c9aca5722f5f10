/**
 * The pure queries of the mock API over the stored lists: `find`/`findIndex` by id,
 * the `filter`s of the per-user getters, and the list a single-record update writes back.
 */
module Collections {
  import opened Types

  /** `users.findIndex(u => u.id === id)`: the first user with that id. */
  function UserIndex(users: seq<User>, id: string): (r: Option<nat>)
    ensures r.Some? ==> r.value < |users| && users[r.value].id == id
    ensures r.Some? ==> forall j :: 0 <= j < r.value ==> users[j].id != id
    ensures r.None? ==> forall j :: 0 <= j < |users| ==> users[j].id != id
  {
    if users == [] then None
    else if users[0].id == id then Some(0)
    else match UserIndex(users[1..], id)
      case None => None
      case Some(k) => Some(k + 1)
  }

  /** `rewards.findIndex(r => r.id === id)` (and `find`, which picks the same record). */
  function RewardIndex(rewards: seq<Reward>, id: string): (r: Option<nat>)
    ensures r.Some? ==> r.value < |rewards| && rewards[r.value].id == id
    ensures r.Some? ==> forall j :: 0 <= j < r.value ==> rewards[j].id != id
    ensures r.None? ==> forall j :: 0 <= j < |rewards| ==> rewards[j].id != id
  {
    if rewards == [] then None
    else if rewards[0].id == id then Some(0)
    else match RewardIndex(rewards[1..], id)
      case None => None
      case Some(k) => Some(k + 1)
  }

  /** `requests.findIndex(r => r.id === id)`. */
  function RequestIndex(requests: seq<PointRequest>, id: string): (r: Option<nat>)
    ensures r.Some? ==> r.value < |requests| && requests[r.value].id == id
    ensures r.Some? ==> forall j :: 0 <= j < r.value ==> requests[j].id != id
    ensures r.None? ==> forall j :: 0 <= j < |requests| ==> requests[j].id != id
  {
    if requests == [] then None
    else if requests[0].id == id then Some(0)
    else match RequestIndex(requests[1..], id)
      case None => None
      case Some(k) => Some(k + 1)
  }

  /** `getUserById`: the first stored user with that id, or null. */
  function GetUserById(users: seq<User>, id: string): (r: Option<User>)
    ensures r.None? ==> forall j :: 0 <= j < |users| ==> users[j].id != id
    ensures r.Some? ==> r.value.id == id && r.value in users
    ensures r.Some? ==> UserIndex(users, id).Some? && r.value == users[UserIndex(users, id).value]
  {
    match UserIndex(users, id)
    case None => None
    case Some(i) => Some(users[i])
  }

  /** `getTransactionsByUser`: the transactions whose `userId` is `uid`, in ledger order. */
  function TransactionsByUser(txs: seq<Transaction>, uid: string): (r: seq<Transaction>)
    ensures |r| <= |txs|
    ensures forall t :: t in r <==> t in txs && t.userId == uid
  {
    if txs == [] then []
    else
      var last := txs[|txs| - 1];
      TransactionsByUser(txs[..|txs| - 1], uid) + (if last.userId == uid then [last] else [])
  }

  /** `getPointRequestsByUser`: the requests whose `userId` is `uid`, in stored order. */
  function RequestsByUser(requests: seq<PointRequest>, uid: string): (r: seq<PointRequest>)
    ensures |r| <= |requests|
    ensures forall q :: q in r <==> q in requests && q.userId == uid
  {
    if requests == [] then []
    else
      var last := requests[|requests| - 1];
      RequestsByUser(requests[..|requests| - 1], uid) + (if last.userId == uid then [last] else [])
  }

  /** `rewards.filter(r => r.id !== id)`: shorter exactly when some reward had that id. */
  function WithoutReward(rewards: seq<Reward>, id: string): (r: seq<Reward>)
    ensures forall x :: x in r <==> x in rewards && x.id != id
    ensures |r| <= |rewards|
    ensures |r| == |rewards| <==> forall j :: 0 <= j < |rewards| ==> rewards[j].id != id
  {
    if rewards == [] then []
    else (if rewards[0].id == id then [] else [rewards[0]]) + WithoutReward(rewards[1..], id)
  }

  /** Filtering one more element at the end extends the result by that element when it is kept. */
  lemma TransactionsByUserSnoc(s: seq<Transaction>, t: Transaction, uid: string)
    ensures TransactionsByUser(s + [t], uid) == TransactionsByUser(s, uid) + (if t.userId == uid then [t] else [])
  {
    assert (s + [t])[..|s|] == s;
  }

  /** Filtering a concatenation filters each part and keeps their order. */
  lemma {:induction false} TransactionsByUserAppend(a: seq<Transaction>, b: seq<Transaction>, uid: string)
    ensures TransactionsByUser(a + b, uid) == TransactionsByUser(a, uid) + TransactionsByUser(b, uid)
  {
    if b == [] {
      assert a + b == a;
    } else {
      var init, last := b[..|b| - 1], b[|b| - 1];
      assert b == init + [last] && a + b == (a + init) + [last];
      TransactionsByUserSnoc(init, last, uid);
      TransactionsByUserSnoc(a + init, last, uid);
      TransactionsByUserAppend(a, init, uid);
    }
  }

  /** A single transaction is kept exactly when it belongs to the user. */
  lemma TransactionsByUserSingle(t: Transaction, uid: string)
    ensures TransactionsByUser([t], uid) == if t.userId == uid then [t] else []
  {
    assert [t][..0] == [];
  }

  /** Filtering one more element at the end extends the result by that element when it is kept. */
  lemma RequestsByUserSnoc(s: seq<PointRequest>, q: PointRequest, uid: string)
    ensures RequestsByUser(s + [q], uid) == RequestsByUser(s, uid) + (if q.userId == uid then [q] else [])
  {
    assert (s + [q])[..|s|] == s;
  }

  /** Filtering a concatenation filters each part and keeps their order. */
  lemma {:induction false} RequestsByUserAppend(a: seq<PointRequest>, b: seq<PointRequest>, uid: string)
    ensures RequestsByUser(a + b, uid) == RequestsByUser(a, uid) + RequestsByUser(b, uid)
  {
    if b == [] {
      assert a + b == a;
    } else {
      var init, last := b[..|b| - 1], b[|b| - 1];
      assert b == init + [last] && a + b == (a + init) + [last];
      RequestsByUserSnoc(init, last, uid);
      RequestsByUserSnoc(a + init, last, uid);
      RequestsByUserAppend(a, init, uid);
    }
  }

  /** A single request is kept exactly when it belongs to the user. */
  lemma RequestsByUserSingle(q: PointRequest, uid: string)
    ensures RequestsByUser([q], uid) == if q.userId == uid then [q] else []
  {
    assert [q][..0] == [];
  }

  /** Filtering a concatenation filters each part and keeps their order. */
  lemma {:induction false} WithoutRewardAppend(a: seq<Reward>, b: seq<Reward>, id: string)
    ensures WithoutReward(a + b, id) == WithoutReward(a, id) + WithoutReward(b, id)
  {
    if a == [] {
      assert a + b == b;
    } else {
      assert (a + b)[1..] == a[1..] + b;
      WithoutRewardAppend(a[1..], b, id);
    }
  }

  /** A single reward is kept exactly when it has another id. */
  lemma WithoutRewardSingle(x: Reward, id: string)
    ensures WithoutReward([x], id) == if x.id == id then [] else [x]
  {
    assert [x][1..] == [];
  }

  /** The user list `updateUser` writes back: the first user with `id` spread with `upd`. */
  function UpdatedUsers(users: seq<User>, id: string, upd: UserUpdates): (r: seq<User>)
    ensures |r| == |users|
    ensures UserIndex(users, id).None? ==> r == users
  {
    match UserIndex(users, id)
    case None => users
    case Some(i) => users[i := MergeUser(users[i], upd)]
  }

  /** The reward list `updateReward` writes back: the first reward with `id` spread with `upd`. */
  function UpdatedRewards(rewards: seq<Reward>, id: string, upd: RewardUpdates): (r: seq<Reward>)
    ensures |r| == |rewards|
    ensures RewardIndex(rewards, id).None? ==> r == rewards
  {
    match RewardIndex(rewards, id)
    case None => rewards
    case Some(i) => rewards[i := MergeReward(rewards[i], upd)]
  }

  /** `updateUser` spreads the update over the first user with the id and leaves every other position as it was. */
  lemma UpdatedUsersEffect(users: seq<User>, id: string, upd: UserUpdates)
    requires UserIndex(users, id).Some?
    ensures var i := UserIndex(users, id).value;
      var r := UpdatedUsers(users, id, upd);
      && r[i] == MergeUser(users[i], upd)
      && (forall j :: 0 <= j < |users| && j != i ==> r[j] == users[j])
  {
  }

  /** `updateReward` spreads the update over the first reward with the id and leaves every other position as it was. */
  lemma UpdatedRewardsEffect(rewards: seq<Reward>, id: string, upd: RewardUpdates)
    requires RewardIndex(rewards, id).Some?
    ensures var i := RewardIndex(rewards, id).value;
      var r := UpdatedRewards(rewards, id, upd);
      && r[i] == MergeReward(rewards[i], upd)
      && (forall j :: 0 <= j < |rewards| && j != i ==> r[j] == rewards[j])
  {
  }

  /** Changing fields other than `id` does not move the first record with a given id. */
  lemma {:induction false} UserIndexFollowsIds(users: seq<User>, users': seq<User>, id: string)
    requires |users| == |users'|
    requires forall j :: 0 <= j < |users| ==> users[j].id == users'[j].id
    ensures UserIndex(users', id) == UserIndex(users, id)
  {
    if users != [] {
      UserIndexFollowsIds(users[1..], users'[1..], id);
    }
  }

  /** Changing fields other than `id` does not move the first request with a given id. */
  lemma {:induction false} RequestIndexFollowsIds(requests: seq<PointRequest>, requests': seq<PointRequest>, id: string)
    requires |requests| == |requests'|
    requires forall j :: 0 <= j < |requests| ==> requests[j].id == requests'[j].id
    ensures RequestIndex(requests', id) == RequestIndex(requests, id)
  {
    if requests != [] {
      RequestIndexFollowsIds(requests[1..], requests'[1..], id);
    }
  }
}
