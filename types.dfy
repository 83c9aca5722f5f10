/** Record shapes shared by the mock API, the fake auth service and the seed data. */
module Types {

  datatype Option<T> = None | Some(value: T) {
    function GetOr(default: T): T {
      match this
      case Some(v) => v
      case None => default
    }
  }

  /** A call either returns a value or throws; the thrown error is the `Err` value. */
  datatype Result<T, E> = Ok(value: T) | Err(error: E)

  datatype Role = STUDENT | ADMIN

  datatype TxType = EARN | REDEEM

  datatype RequestStatus = PENDING | APPROVED | REJECTED

  datatype User = User(
    id: string,
    name: string,
    studentId: string,
    role: Role,
    email: string,
    phone: string,
    points: int,
    password: string)

  datatype Reward = Reward(
    id: string,
    title: string,
    cost: int,
    quantity: int,
    description: string)

  datatype Transaction = Transaction(
    id: string,
    userId: string,
    amount: int,
    reason: string,
    date: string,
    txType: TxType)

  datatype PointRequest = PointRequest(
    id: string,
    userId: string,
    userName: string,
    amount: int,
    reason: string,
    status: RequestStatus,
    requestDate: string,
    reviewDate: Option<string>,
    reviewedBy: Option<string>)

  /** A user as stored in the session: every field except the password. */
  datatype SessionUser = SessionUser(
    id: string,
    name: string,
    studentId: string,
    role: Role,
    email: string,
    phone: string,
    points: int)

  function WithoutPassword(u: User): SessionUser {
    SessionUser(u.id, u.name, u.studentId, u.role, u.email, u.phone, u.points)
  }

  /** The decoded content of a session token: subject, issue time and expiry (milliseconds). */
  datatype Token = Token(uid: string, issuedAt: int, expiresAt: int)

  const TokenLifetime: int := 24 * 60 * 60 * 1000

  function GenerateToken(uid: string, now: int): (t: Token)
    ensures t.uid == uid && t.issuedAt == now
    ensures t.expiresAt - t.issuedAt == 86_400_000
  {
    Token(uid, now, now + TokenLifetime)
  }

  /** `Partial<User>`: a field is present in the update exactly when it is `Some`. */
  datatype UserUpdates = UserUpdates(
    id: Option<string>,
    name: Option<string>,
    studentId: Option<string>,
    role: Option<Role>,
    email: Option<string>,
    phone: Option<string>,
    points: Option<int>,
    password: Option<string>)

  /** `Partial<Reward>`. */
  datatype RewardUpdates = RewardUpdates(
    id: Option<string>,
    title: Option<string>,
    cost: Option<int>,
    quantity: Option<int>,
    description: Option<string>)

  /** `{ points: p }` */
  function PointsUpdate(p: int): UserUpdates {
    UserUpdates(None, None, None, None, None, None, Some(p), None)
  }

  /** `{ quantity: q }` */
  function QuantityUpdate(q: int): RewardUpdates {
    RewardUpdates(None, None, None, Some(q), None)
  }

  /** The object spread `{ ...u, ...updates }`. */
  function MergeUser(u: User, upd: UserUpdates): User {
    User(upd.id.GetOr(u.id), upd.name.GetOr(u.name), upd.studentId.GetOr(u.studentId),
         upd.role.GetOr(u.role), upd.email.GetOr(u.email), upd.phone.GetOr(u.phone),
         upd.points.GetOr(u.points), upd.password.GetOr(u.password))
  }

  /** The object spread `{ ...r, ...updates }`. */
  function MergeReward(r: Reward, upd: RewardUpdates): Reward {
    Reward(upd.id.GetOr(r.id), upd.title.GetOr(r.title), upd.cost.GetOr(r.cost),
           upd.quantity.GetOr(r.quantity), upd.description.GetOr(r.description))
  }

  /** Writing a user's current balance back over itself changes nothing. */
  lemma PointsUpdateToCurrentIsNoOp(u: User)
    ensures MergeUser(u, PointsUpdate(u.points)) == u
  {
  }

  /** Spreading `{ points: p }` over a user sets its points to `p` and keeps every other field. */
  lemma PointsUpdateSetsPoints(u: User, p: int)
    ensures MergeUser(u, PointsUpdate(p)) == u.(points := p)
  {
  }

  /** Spreading `{ quantity: q }` over a reward sets its stock to `q` and keeps every other field. */
  lemma QuantityUpdateSetsQuantity(r: Reward, q: int)
    ensures MergeReward(r, QuantityUpdate(q)) == r.(quantity := q)
  {
  }
}
