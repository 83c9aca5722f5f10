/**
 * The mock back end: every exported call that writes reads a stored list, changes it and writes
 * it back; the queries (`getUserById`, the per-user getters, `login`) are functions of the list read.
 * Each call is one sequential step over the store; ids and timestamps the code would
 * generate (`generateUID`, `new Date()`) are parameters.
 */
module MockApi {
  import opened Types
  import opened Collections
  import opened Ledger
  import opened Storage

  /** The errors the mock API throws. */
  datatype ApiError =
    | UserNotFound
    | RewardNotFound
    | RewardOutOfStock
    | InsufficientPoints
    | InvalidEmailOrPassword
    | RequestNotFound
    | RequestAlreadyReviewed

  function Message(e: ApiError): string {
    match e
    case UserNotFound => "User not found"
    case RewardNotFound => "Reward not found"
    case RewardOutOfStock => "Reward out of stock"
    case InsufficientPoints => "Insufficient points"
    case InvalidEmailOrPassword => "Invalid email or password"
    case RequestNotFound => "Request not found"
    case RequestAlreadyReviewed => "Request already reviewed"
  }

  /** The reason recorded for a redemption: "Redeemed: " followed by the reward's title. */
  function RedemptionReason(title: string): (r: string)
    ensures |r| == 10 + |title| && r[..10] == "Redeemed: " && r[10..] == title
  {
    "Redeemed: " + title
  }

  /** The reason recorded for an admin adjustment: "Admin adjustment: " followed by the given reason. */
  function AdjustmentReason(reason: string): (r: string)
    ensures |r| == 18 + |reason| && r[..18] == "Admin adjustment: " && r[18..] == reason
  {
    "Admin adjustment: " + reason
  }

  predicate StockNonNegative(rewards: seq<Reward>) {
    forall j :: 0 <= j < |rewards| ==> rewards[j].quantity >= 0
  }

  // ---------------------------------------------------------------- users

  /** POST /users: appends the record to `dw_users` and to `fb_users`. */
  method CreateUser(store: LocalStore, user: User) returns (r: User)
    modifies store`dwUsers, store`fbUsers
    ensures r == user
    ensures store.dwUsers == old(store.dwUsers) + [user]
    ensures store.fbUsers == old(store.fbUsers) + [user]
  {
    var users := store.dwUsers;
    users := users + [user];
    store.dwUsers := users;
    var fbUsersList := store.fbUsers;
    fbUsersList := fbUsersList + [user];
    store.fbUsers := fbUsersList;
    r := user;
  }

  /** PUT /users/:id: spreads `updates` over the first user with that id. */
  method UpdateUser(store: LocalStore, id: string, updates: UserUpdates) returns (r: Result<User, ApiError>)
    modifies store`dwUsers
    ensures UserIndex(old(store.dwUsers), id).None? ==>
      r == Err(UserNotFound) && unchanged(store)
    ensures UserIndex(old(store.dwUsers), id).Some? ==>
      var i := UserIndex(old(store.dwUsers), id).value;
      && r == Ok(MergeUser(old(store.dwUsers)[i], updates))
      && store.dwUsers == UpdatedUsers(old(store.dwUsers), id, updates)
  {
    var users := store.dwUsers;
    var index := UserIndex(users, id);
    if index.None? {
      return Err(UserNotFound);
    }
    var i := index.value;
    users := users[i := MergeUser(users[i], updates)];
    store.dwUsers := users;
    r := Ok(users[i]);
  }

  /** POST /auth/login: the first user whose e-mail and password both match exactly. */
  function CredentialIndex(users: seq<User>, email: string, password: string): (r: Option<nat>)
    ensures r.Some? ==> r.value < |users| && users[r.value].email == email && users[r.value].password == password
    ensures r.Some? ==> forall j :: 0 <= j < r.value ==> !(users[j].email == email && users[j].password == password)
    ensures r.None? ==> forall j :: 0 <= j < |users| ==> !(users[j].email == email && users[j].password == password)
  {
    if users == [] then None
    else if users[0].email == email && users[0].password == password then Some(0)
    else match CredentialIndex(users[1..], email, password)
      case None => None
      case Some(k) => Some(k + 1)
  }

  /**
   * `login` compares e-mails exactly (unlike the auth service) and returns the stored record,
   * password included.
   */
  function Login(users: seq<User>, email: string, password: string): (r: Result<User, ApiError>)
    ensures r.Ok? ==> r.value in users && r.value.email == email && r.value.password == password
    ensures r.Ok? ==> CredentialIndex(users, email, password).Some?
                      && r.value == users[CredentialIndex(users, email, password).value]
    ensures r.Err? ==> forall j :: 0 <= j < |users| ==> !(users[j].email == email && users[j].password == password)
    ensures r.Err? ==> r.error == InvalidEmailOrPassword
  {
    match CredentialIndex(users, email, password)
    case None => Err(InvalidEmailOrPassword)
    case Some(i) => Ok(users[i])
  }

  /**
   * The record `login` returns still carries the password: the code builds a copy without it but
   * returns the stored record.
   */
  lemma LoginLeaksPassword()
    ensures var alice := User("u1", "Alice", "STU001", STUDENT, "alice@student.com", "", 150, "student123");
      && Login([alice], "alice@student.com", "student123") == Ok(alice)
      && Login([alice], "alice@student.com", "student123").value.password == "student123"
  {
    var alice := User("u1", "Alice", "STU001", STUDENT, "alice@student.com", "", 150, "student123");
    assert CredentialIndex([alice], "alice@student.com", "student123") == Some(0);
  }

  /** `login` as its comment intends: the matching account without its password. */
  function LoginWithoutPassword(users: seq<User>, email: string, password: string): (r: Result<SessionUser, ApiError>)
    ensures r.Ok? ==> exists j :: 0 <= j < |users| && users[j].email == email && users[j].password == password
                                  && r.value == WithoutPassword(users[j])
    ensures r.Ok? ==> CredentialIndex(users, email, password).Some?
                      && r.value == WithoutPassword(users[CredentialIndex(users, email, password).value])
    ensures r.Err? ==> r.error == InvalidEmailOrPassword
                       && forall j :: 0 <= j < |users| ==> !(users[j].email == email && users[j].password == password)
  {
    match CredentialIndex(users, email, password)
    case None => Err(InvalidEmailOrPassword)
    case Some(i) => Ok(WithoutPassword(users[i]))
  }

  // ---------------------------------------------------------------- rewards

  /** POST /rewards: appends the record as given; cost and quantity are not checked. */
  method CreateReward(store: LocalStore, reward: Reward) returns (r: Reward)
    modifies store`dwRewards
    ensures r == reward
    ensures store.dwRewards == old(store.dwRewards) + [reward]
  {
    var rewards := store.dwRewards;
    rewards := rewards + [reward];
    store.dwRewards := rewards;
    r := reward;
  }

  /** PUT /rewards/:id: spreads `updates` over the first reward with that id. */
  method UpdateReward(store: LocalStore, id: string, updates: RewardUpdates) returns (r: Result<Reward, ApiError>)
    modifies store`dwRewards
    ensures RewardIndex(old(store.dwRewards), id).None? ==>
      r == Err(RewardNotFound) && unchanged(store)
    ensures RewardIndex(old(store.dwRewards), id).Some? ==>
      var i := RewardIndex(old(store.dwRewards), id).value;
      && r == Ok(MergeReward(old(store.dwRewards)[i], updates))
      && store.dwRewards == UpdatedRewards(old(store.dwRewards), id, updates)
  {
    var rewards := store.dwRewards;
    var index := RewardIndex(rewards, id);
    if index.None? {
      return Err(RewardNotFound);
    }
    var i := index.value;
    rewards := rewards[i := MergeReward(rewards[i], updates)];
    store.dwRewards := rewards;
    r := Ok(rewards[i]);
  }

  /** DELETE /rewards/:id: removes every reward with that id; fails when none had it. */
  method DeleteReward(store: LocalStore, rewardId: string) returns (r: Result<(), ApiError>)
    modifies store`dwRewards
    ensures RewardIndex(old(store.dwRewards), rewardId).None? ==>
      r == Err(RewardNotFound) && unchanged(store)
    ensures RewardIndex(old(store.dwRewards), rewardId).Some? ==>
      && r == Ok(())
      && store.dwRewards == WithoutReward(old(store.dwRewards), rewardId)
      && |store.dwRewards| < |old(store.dwRewards)|
      && forall x :: x in store.dwRewards <==> x in old(store.dwRewards) && x.id != rewardId
  {
    var rewards := store.dwRewards;
    var filteredRewards := WithoutReward(rewards, rewardId);
    if |filteredRewards| == |rewards| {
      return Err(RewardNotFound);
    }
    store.dwRewards := filteredRewards;
    r := Ok(());
  }

  // ---------------------------------------------------------------- ledger

  /**
   * POST /transactions: appends one transaction, typed by the sign of `amount` (zero is REDEEM),
   * then credits its user when `dw_users` holds one. A transaction for an unknown user is
   * still appended.
   */
  method CreateTransaction(store: LocalStore, txId: string, date: string, userId: string, amount: int, reason: string)
    returns (t: Transaction)
    modifies store`dwTransactions, store`dwUsers
    ensures t == Transaction(txId, userId, amount, reason, date, TypeFor(amount))
    ensures store.dwTransactions == old(store.dwTransactions) + [t]
    ensures store.dwUsers == Credit(old(store.dwUsers), userId, amount)
    ensures UniqueIds(old(store.dwUsers)) && old(Consistent(store.dwUsers, store.dwTransactions)) ==>
      Consistent(store.dwUsers, store.dwTransactions)
  {
    t := Transaction(txId, userId, amount, reason, date, TypeFor(amount));
    var transactions := store.dwTransactions;
    transactions := transactions + [t];
    store.dwTransactions := transactions;

    var user := GetUserById(store.dwUsers, userId);
    if user.Some? {
      var updated := UpdateUser(store, userId, PointsUpdate(user.value.points + amount));
    }
    if UniqueIds(old(store.dwUsers)) && old(Consistent(store.dwUsers, store.dwTransactions)) {
      RecordPreservesConsistency(old(store.dwUsers), old(store.dwTransactions), t);
    }
  }

  /** The checks of `redeemReward`, in the order the code makes them; `None` when all pass. */
  function RedeemRejection(rewards: seq<Reward>, users: seq<User>, rewardId: string, userId: string): Option<ApiError> {
    match RewardIndex(rewards, rewardId)
    case None => Some(RewardNotFound)
    case Some(i) =>
      if rewards[i].quantity <= 0 then Some(RewardOutOfStock)
      else match GetUserById(users, userId)
        case None => Some(UserNotFound)
        case Some(u) => if u.points < rewards[i].cost then Some(InsufficientPoints) else None
  }

  /**
   * Both stock checks come before both user checks: a missing or out-of-stock reward is reported
   * whatever the user list holds.
   */
  lemma RewardChecksComeFirst(rewards: seq<Reward>, users: seq<User>, users': seq<User>, rewardId: string, userId: string)
    requires RewardIndex(rewards, rewardId).None? || rewards[RewardIndex(rewards, rewardId).value].quantity <= 0
    ensures RedeemRejection(rewards, users, rewardId, userId) == RedeemRejection(rewards, users', rewardId, userId)
    ensures RedeemRejection(rewards, users, rewardId, userId) in {Some(RewardNotFound), Some(RewardOutOfStock)}
  {
  }

  /**
   * A redemption that passes its checks finds the reward in stock and the user able to pay:
   * the decremented quantity and the debited balance are both non-negative.
   */
  lemma RedeemAcceptedIsAffordable(rewards: seq<Reward>, users: seq<User>, rewardId: string, userId: string)
    requires RedeemRejection(rewards, users, rewardId, userId).None?
    ensures RewardIndex(rewards, rewardId).Some? && GetUserById(users, userId).Some?
    ensures var reward := rewards[RewardIndex(rewards, rewardId).value];
      reward.quantity - 1 >= 0 && GetUserById(users, userId).value.points - reward.cost >= 0
  {
  }

  /** Taking one unit from a reward that has stock leaves every quantity non-negative. */
  lemma DecrementKeepsStockNonNegative(rewards: seq<Reward>, rewardId: string)
    requires StockNonNegative(rewards)
    requires RewardIndex(rewards, rewardId).Some? && rewards[RewardIndex(rewards, rewardId).value].quantity > 0
    ensures var q := rewards[RewardIndex(rewards, rewardId).value].quantity;
      StockNonNegative(UpdatedRewards(rewards, rewardId, QuantityUpdate(q - 1)))
  {
  }

  /**
   * POST /rewards/:id/redeem: when every check passes, one unit of the reward's stock is
   * taken, one debit of its cost is recorded, and the user is debited; otherwise nothing changes.
   */
  method RedeemReward(store: LocalStore, rewardId: string, userId: string, txId: string, date: string)
    returns (r: Result<(), ApiError>)
    modifies store`dwRewards, store`dwTransactions, store`dwUsers
    ensures var rejection := RedeemRejection(old(store.dwRewards), old(store.dwUsers), rewardId, userId);
      rejection.Some? ==> r == Err(rejection.value) && unchanged(store)
    ensures RedeemRejection(old(store.dwRewards), old(store.dwUsers), rewardId, userId).None? ==>
      var reward := old(store.dwRewards)[RewardIndex(old(store.dwRewards), rewardId).value];
      && r == Ok(())
      && store.dwRewards == UpdatedRewards(old(store.dwRewards), rewardId, QuantityUpdate(reward.quantity - 1))
      && store.dwTransactions == old(store.dwTransactions) +
           [Transaction(txId, userId, -reward.cost, RedemptionReason(reward.title), date, TypeFor(-reward.cost))]
      && store.dwUsers == Credit(old(store.dwUsers), userId, -reward.cost)
    ensures old(StockNonNegative(store.dwRewards)) ==> StockNonNegative(store.dwRewards)
    ensures UniqueIds(old(store.dwUsers)) && old(Consistent(store.dwUsers, store.dwTransactions)) ==>
      Consistent(store.dwUsers, store.dwTransactions)
  {
    var rewards := store.dwRewards;
    var found := RewardIndex(rewards, rewardId);
    if found.None? {
      assert RedeemRejection(rewards, store.dwUsers, rewardId, userId) == Some(RewardNotFound);
      return Err(RewardNotFound);
    }
    var reward := rewards[found.value];
    if reward.quantity <= 0 {
      assert RedeemRejection(rewards, store.dwUsers, rewardId, userId) == Some(RewardOutOfStock);
      return Err(RewardOutOfStock);
    }
    var user := GetUserById(store.dwUsers, userId);
    if user.None? {
      assert RedeemRejection(rewards, store.dwUsers, rewardId, userId) == Some(UserNotFound);
      return Err(UserNotFound);
    }
    if user.value.points < reward.cost {
      assert RedeemRejection(rewards, store.dwUsers, rewardId, userId) == Some(InsufficientPoints);
      return Err(InsufficientPoints);
    }

    var updatedReward := UpdateReward(store, rewardId, QuantityUpdate(reward.quantity - 1));
    var t := CreateTransaction(store, txId, date, userId, -reward.cost, RedemptionReason(reward.title));
    if StockNonNegative(rewards) {
      DecrementKeepsStockNonNegative(rewards, rewardId);
    }
    r := Ok(());
  }

  // ---------------------------------------------------------------- point requests

  /**
   * POST /point-requests: stores a PENDING request carrying the user's current name.
   * Neither the amount nor the reason is checked.
   */
  method CreatePointRequest(store: LocalStore, requestId: string, date: string, userId: string, amount: int, reason: string)
    returns (r: Result<PointRequest, ApiError>)
    modifies store`dwPointRequests
    ensures GetUserById(old(store.dwUsers), userId).None? ==>
      r == Err(UserNotFound) && unchanged(store)
    ensures GetUserById(old(store.dwUsers), userId).Some? ==>
      var request := PointRequest(requestId, userId, GetUserById(old(store.dwUsers), userId).value.name,
                                  amount, reason, PENDING, date, None, None);
      && r == Ok(request)
      && store.dwPointRequests == old(store.dwPointRequests) + [request]
  {
    var user := GetUserById(store.dwUsers, userId);
    if user.None? {
      return Err(UserNotFound);
    }
    var request := PointRequest(requestId, userId, user.value.name, amount, reason, PENDING, date, None, None);
    var requests := store.dwPointRequests;
    requests := requests + [request];
    store.dwPointRequests := requests;
    r := Ok(request);
  }

  /** Why a review of `requestId` is refused, in the order the code checks; `None` when it may proceed. */
  function ReviewRejection(requests: seq<PointRequest>, requestId: string): Option<ApiError> {
    match RequestIndex(requests, requestId)
    case None => Some(RequestNotFound)
    case Some(i) => if requests[i].status != PENDING then Some(RequestAlreadyReviewed) else None
  }

  /** The request as a review writes it back. */
  function Reviewed(request: PointRequest, status: RequestStatus, reviewDate: string, adminId: string): PointRequest {
    request.(status := status, reviewDate := Some(reviewDate), reviewedBy := Some(adminId))
  }

  /**
   * A request is reviewed at most once: once a review has written APPROVED or REJECTED,
   * every further review of that id is refused as already reviewed.
   */
  lemma SecondReviewRefused(requests: seq<PointRequest>, requestId: string, status: RequestStatus,
                            reviewDate: string, adminId: string)
    requires ReviewRejection(requests, requestId).None?
    requires status != PENDING
    ensures var i := RequestIndex(requests, requestId).value;
      ReviewRejection(requests[i := Reviewed(requests[i], status, reviewDate, adminId)], requestId)
        == Some(RequestAlreadyReviewed)
  {
    var i := RequestIndex(requests, requestId).value;
    var after := requests[i := Reviewed(requests[i], status, reviewDate, adminId)];
    RequestIndexFollowsIds(requests, after, requestId);
  }

  /**
   * PUT /point-requests/:id/approve: marks a PENDING request APPROVED by `adminId`, then records
   * a transaction with the request's user, amount and reason.
   */
  method ApprovePointRequest(store: LocalStore, requestId: string, adminId: string, reviewDate: string,
                             txId: string, txDate: string)
    returns (r: Result<PointRequest, ApiError>)
    modifies store`dwPointRequests, store`dwTransactions, store`dwUsers
    ensures var rejection := ReviewRejection(old(store.dwPointRequests), requestId);
      rejection.Some? ==> r == Err(rejection.value) && unchanged(store)
    ensures ReviewRejection(old(store.dwPointRequests), requestId).None? ==>
      var i := RequestIndex(old(store.dwPointRequests), requestId).value;
      var request := old(store.dwPointRequests)[i];
      var approved := Reviewed(request, APPROVED, reviewDate, adminId);
      && r == Ok(approved)
      && store.dwPointRequests == old(store.dwPointRequests)[i := approved]
      && store.dwTransactions == old(store.dwTransactions) +
           [Transaction(txId, request.userId, request.amount, request.reason, txDate, TypeFor(request.amount))]
      && store.dwUsers == Credit(old(store.dwUsers), request.userId, request.amount)
    ensures UniqueIds(old(store.dwUsers)) && old(Consistent(store.dwUsers, store.dwTransactions)) ==>
      Consistent(store.dwUsers, store.dwTransactions)
  {
    var requests := store.dwPointRequests;
    var index := RequestIndex(requests, requestId);
    if index.None? {
      return Err(RequestNotFound);
    }
    var i := index.value;
    var request := requests[i];
    if request.status != PENDING {
      return Err(RequestAlreadyReviewed);
    }
    requests := requests[i := Reviewed(request, APPROVED, reviewDate, adminId)];
    store.dwPointRequests := requests;

    var t := CreateTransaction(store, txId, txDate, request.userId, request.amount, request.reason);
    r := Ok(requests[i]);
  }

  /** PUT /point-requests/:id/reject: marks a PENDING request REJECTED by `adminId`; no ledger effect. */
  method RejectPointRequest(store: LocalStore, requestId: string, adminId: string, reviewDate: string)
    returns (r: Result<PointRequest, ApiError>)
    modifies store`dwPointRequests
    ensures var rejection := ReviewRejection(old(store.dwPointRequests), requestId);
      rejection.Some? ==> r == Err(rejection.value) && unchanged(store)
    ensures ReviewRejection(old(store.dwPointRequests), requestId).None? ==>
      var i := RequestIndex(old(store.dwPointRequests), requestId).value;
      var rejected := Reviewed(old(store.dwPointRequests)[i], REJECTED, reviewDate, adminId);
      && r == Ok(rejected)
      && store.dwPointRequests == old(store.dwPointRequests)[i := rejected]
  {
    var requests := store.dwPointRequests;
    var index := RequestIndex(requests, requestId);
    if index.None? {
      return Err(RequestNotFound);
    }
    var i := index.value;
    var request := requests[i];
    if request.status != PENDING {
      return Err(RequestAlreadyReviewed);
    }
    requests := requests[i := Reviewed(request, REJECTED, reviewDate, adminId)];
    store.dwPointRequests := requests;
    r := Ok(requests[i]);
  }

  // ---------------------------------------------------------------- admin

  /**
   * PUT /users/:id/adjust-points: records one transaction "Admin adjustment: <reason>" (which
   * credits the user), then writes `user.points + adjustment` from the user read at the start.
   * The net effect is a single application of `adjustment`, with no lower bound.
   * `adminId` is only logged.
   */
  method AdjustUserPoints(store: LocalStore, userId: string, adjustment: int, reason: string, adminId: string,
                          txId: string, date: string)
    returns (r: Result<User, ApiError>)
    modifies store`dwTransactions, store`dwUsers
    ensures GetUserById(old(store.dwUsers), userId).None? ==>
      r == Err(UserNotFound) && unchanged(store)
    ensures GetUserById(old(store.dwUsers), userId).Some? ==>
      var user := GetUserById(old(store.dwUsers), userId).value;
      && r == Ok(user.(points := user.points + adjustment))
      && store.dwTransactions == old(store.dwTransactions) +
           [Transaction(txId, userId, adjustment, AdjustmentReason(reason), date, TypeFor(adjustment))]
      && store.dwUsers == Credit(old(store.dwUsers), userId, adjustment)
    ensures UniqueIds(old(store.dwUsers)) && old(Consistent(store.dwUsers, store.dwTransactions)) ==>
      Consistent(store.dwUsers, store.dwTransactions)
  {
    var user := GetUserById(store.dwUsers, userId);
    if user.None? {
      return Err(UserNotFound);
    }
    CreditedUser(store.dwUsers, userId, adjustment);
    AdjustAppliesOnce(store.dwUsers, userId, adjustment);
    var t := CreateTransaction(store, txId, date, userId, adjustment, AdjustmentReason(reason));
    r := UpdateUser(store, userId, PointsUpdate(user.value.points + adjustment));
  }
}
