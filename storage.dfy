/**
 * The browser's key-value storage as the three core files use it: one field per key.
 * A list key that is absent reads as the empty list (every reader falls back to `[]`);
 * an optional key is `None` when absent.
 */
module Storage {
  import opened Types

  /** The value of every key at one moment. */
  datatype StoreState = StoreState(
    dwUsers: seq<User>,
    dwRewards: seq<Reward>,
    dwTransactions: seq<Transaction>,
    dwPointRequests: seq<PointRequest>,
    dwSeeded: Option<string>,
    fbUsers: seq<User>,
    fbCurrentUser: Option<SessionUser>,
    fbSession: Option<Token>,
    legacyCurrentUser: Option<string>)

  /** Storage with no key set. */
  const Cleared := StoreState([], [], [], [], None, [], None, None, None)

  class LocalStore {
    /** `dw_users`: the user records the mock API reads and writes. */
    var dwUsers: seq<User>
    /** `dw_rewards` */
    var dwRewards: seq<Reward>
    /** `dw_transactions`: the ledger, append-only. */
    var dwTransactions: seq<Transaction>
    /** `dw_point_requests` */
    var dwPointRequests: seq<PointRequest>
    /** `dw_seeded`: the seeding flag. */
    var dwSeeded: Option<string>
    /** `fb_users`: the user records the auth service reads and writes. */
    var fbUsers: seq<User>
    /** `fb_currentUser`: the signed-in user, stored without password. */
    var fbCurrentUser: Option<SessionUser>
    /** `fb_session`: the session token. */
    var fbSession: Option<Token>
    /** `currentUser`: a key from an older version of the app, only ever removed here. */
    var legacyCurrentUser: Option<string>

    function Snapshot(): StoreState
      reads this
    {
      StoreState(dwUsers, dwRewards, dwTransactions, dwPointRequests, dwSeeded,
                 fbUsers, fbCurrentUser, fbSession, legacyCurrentUser)
    }

    constructor ()
      ensures Snapshot() == Cleared
    {
      dwUsers, dwRewards, dwTransactions, dwPointRequests := [], [], [], [];
      dwSeeded := None;
      fbUsers, fbCurrentUser, fbSession := [], None, None;
      legacyCurrentUser := None;
    }
  }
}
