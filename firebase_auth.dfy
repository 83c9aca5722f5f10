/**
 * The simulated Firebase authentication service: an account registry in `fb_users`, the
 * signed-in user and session token, and the migration of accounts from `dw_users`.
 * Fresh user ids and the clock (`Date.now()`) are parameters.
 */
module FirebaseAuth {
  import opened Types
  import opened Text
  import opened Collections
  import opened Ledger
  import opened Storage
  import MockApi

  /** The `{ code, message }` object the service throws. */
  datatype AuthError = AuthError(code: string, message: string)

  const SignUpInputMissing := AuthError("auth/invalid-input", "Please fill in all fields")
  const SignInInputMissing := AuthError("auth/invalid-input", "Please enter email and password")
  const WeakPassword := AuthError("auth/weak-password", "Password should be at least 6 characters")
  const EmailAlreadyInUse := AuthError("auth/email-already-in-use", "This email is already registered")
  const InvalidCredentials := AuthError("auth/invalid-credentials", "Invalid email or password")
  const AuthUserNotFound := AuthError("auth/user-not-found", "User not found")

  /**
   * A caller tells the failures apart by `code`: every code names one failure, except
   * `auth/invalid-input`, which sign-up and sign-in share with different messages.
   */
  lemma AuthErrorCodes()
    ensures SignUpInputMissing.code == SignInInputMissing.code == "auth/invalid-input"
    ensures SignUpInputMissing.message != SignInInputMissing.message
    ensures var codes := [SignUpInputMissing.code, WeakPassword.code, EmailAlreadyInUse.code,
                          InvalidCredentials.code, AuthUserNotFound.code];
      forall i, j :: 0 <= i < j < |codes| ==> codes[i] != codes[j]
  {
  }

  /** What `signUp` and `signIn` resolve to: the stored user (password included) and its token. */
  datatype AuthResponse = AuthResponse(user: User, token: Token)

  /** The length of `users.filter(u => u.role === role)`. */
  function CountRole(users: seq<User>, role: Role): (n: nat)
    ensures n <= |users|
    ensures n == |RoleIndices(users, role)|
  {
    if users == [] then
      assert RoleIndices(users, role) == {};
      0
    else
      var init, last := users[..|users| - 1], |users| - 1;
      assert RoleIndices(users, role)
        == RoleIndices(init, role) + (if users[last].role == role then {last} else {});
      CountRole(init, role) + (if users[last].role == role then 1 else 0)
  }

  /** The positions of the accounts holding `role`. */
  function RoleIndices(users: seq<User>, role: Role): set<int> {
    set i | 0 <= i < |users| && users[i].role == role
  }

  function RolePrefix(role: Role): string {
    match role
    case STUDENT => "STU"
    case ADMIN => "ADMIN"
  }

  /** `String(n).padStart(3, '0')`. */
  function PaddedNumber(n: nat): string {
    PadStart(DecimalString(n), 3, '0')
  }

  /** A padded number is all digits, at least three of them, and reads back as the number it was made from. */
  lemma PaddedNumberReadsBack(n: nat)
    ensures |PaddedNumber(n)| == if |DecimalString(n)| >= 3 then |DecimalString(n)| else 3
    ensures forall i :: 0 <= i < |PaddedNumber(n)| ==> IsDigit(PaddedNumber(n)[i])
    ensures ParseDecimal(PaddedNumber(n)) == n
  {
    var digits := DecimalString(n);
    var padded := PaddedNumber(n);
    var zeros := padded[..|padded| - |digits|];
    assert padded == zeros + digits;
    ParseDecimalString(n);
    ParseIgnoresLeadingZeros(zeros, digits);
    forall i | 0 <= i < |padded|
      ensures IsDigit(padded[i])
    {
      if i >= |zeros| {
        assert padded[i] == digits[i - |zeros|];
      }
    }
  }

  /**
   * The display id `signUp` gives a new account: the role's prefix, then one more than the number
   * of registered accounts with that role, zero-padded to at least three digits.
   */
  function StudentIdFor(users: seq<User>, role: Role): string {
    RolePrefix(role) + PaddedNumber(CountRole(users, role) + 1)
  }

  /**
   * A display id starts with its role's prefix, followed only by digits (at least three, never
   * truncated) whose value is one more than the number of accounts already holding that role.
   */
  lemma StudentIdShape(users: seq<User>, role: Role)
    ensures var r := StudentIdFor(users, role);
      var p := |RolePrefix(role)|;
      && |r| >= p + 3
      && r[..p] == RolePrefix(role)
      && (forall i :: p <= i < |r| ==> IsDigit(r[i]))
      && ParseDecimal(r[p..]) == CountRole(users, role) + 1
  {
    var n := CountRole(users, role) + 1;
    PaddedNumberReadsBack(n);
    var r := StudentIdFor(users, role);
    assert r[|RolePrefix(role)|..] == PaddedNumber(n);
  }

  /** The number in a display id: the digits after the role's prefix. */
  function IdNumber(studentId: string, role: Role): int
    requires |studentId| >= |RolePrefix(role)|
  {
    ParseDecimal(studentId[|RolePrefix(role)|..])
  }

  /**
   * Display ids are sequential per role: registering an account with `role` raises the number the
   * next account with that role receives by one; registering one with the other role leaves it.
   */
  lemma NextIdIsSequential(users: seq<User>, u: User, role: Role)
    ensures IdNumber(StudentIdFor(users + [u], role), role)
      == IdNumber(StudentIdFor(users, role), role) + (if u.role == role then 1 else 0)
  {
    assert (users + [u])[..|users + [u]| - 1] == users;
    StudentIdShape(users, role);
    StudentIdShape(users + [u], role);
  }

  /** Some registered account has this e-mail, ignoring case (`users.find(...)` is truthy). */
  predicate EmailTaken(users: seq<User>, email: string) {
    exists j :: 0 <= j < |users| && SameEmail(users[j].email, email)
  }

  /** Why `signUp` refuses, checked in the code's order; `None` when it goes ahead. */
  function SignUpRejection(users: seq<User>, email: string, password: string, name: string): (r: Option<AuthError>)
    ensures r == Some(SignUpInputMissing) <==> email == [] || password == [] || name == []
    ensures r == Some(WeakPassword) <==> email != [] && password != [] && name != [] && Utf16Length(password) < 6
    ensures r == Some(EmailAlreadyInUse) <==>
      email != [] && password != [] && name != [] && Utf16Length(password) >= 6 && EmailTaken(users, email)
    ensures r.None? <==>
      email != [] && password != [] && name != [] && Utf16Length(password) >= 6 && !EmailTaken(users, email)
    ensures r.Some? ==> r.value in {SignUpInputMissing, WeakPassword, EmailAlreadyInUse}
  {
    if email == [] || password == [] || name == [] then Some(SignUpInputMissing)
    else if Utf16Length(password) < 6 then Some(WeakPassword)
    else if EmailTaken(users, email) then Some(EmailAlreadyInUse)
    else None
  }

  /** The account `signUp` creates: no points, no phone, the next display id for its role. */
  function NewAccount(users: seq<User>, id: string, email: string, password: string, name: string, role: Role): User {
    User(id, name, StudentIdFor(users, role), role, email, "", 0, password)
  }

  /** No two registered accounts share an e-mail, ignoring case. */
  predicate DistinctEmails(users: seq<User>) {
    forall i, j :: 0 <= i < j < |users| ==> !SameEmail(users[i].email, users[j].email)
  }

  /** An accepted sign-up keeps the registry free of case-insensitive duplicate e-mails. */
  lemma SignUpKeepsEmailsDistinct(users: seq<User>, id: string, email: string, password: string, name: string, role: Role)
    requires DistinctEmails(users)
    requires SignUpRejection(users, email, password, name).None?
    ensures DistinctEmails(users + [NewAccount(users, id, email, password, name, role)])
  {
    var all := users + [NewAccount(users, id, email, password, name, role)];
    forall i, j | 0 <= i < j < |all|
      ensures !SameEmail(all[i].email, all[j].email)
    {
      if j == |users| {
        assert all[i] == users[i] && all[j].email == email;
        assert !SameEmail(users[i].email, email);
      }
    }
  }

  /**
   * `signUp`: validate, register in `fb_users` and `dw_users`, then open a session for the new account.
   * The source's `role` parameter defaults to STUDENT; a caller here always passes it.
   */
  method SignUp(store: LocalStore, email: string, password: string, name: string, role: Role, newId: string, now: int)
    returns (r: Result<AuthResponse, AuthError>)
    modifies store`fbUsers, store`dwUsers, store`fbCurrentUser, store`fbSession
    ensures var rejection := SignUpRejection(old(store.fbUsers), email, password, name);
      rejection.Some? ==> r == Err(rejection.value) && unchanged(store)
    ensures SignUpRejection(old(store.fbUsers), email, password, name).None? ==>
      var u := NewAccount(old(store.fbUsers), newId, email, password, name, role);
      && r == Ok(AuthResponse(u, GenerateToken(newId, now)))
      && store.fbUsers == old(store.fbUsers) + [u]
      && store.dwUsers == old(store.dwUsers) + [u]
      && store.fbCurrentUser == Some(WithoutPassword(u))
      && store.fbSession == Some(GenerateToken(newId, now))
      && IsAuthenticated(store)
  {
    var users := store.fbUsers;
    if email == [] || password == [] || name == [] {
      assert SignUpRejection(users, email, password, name) == Some(SignUpInputMissing);
      return Err(SignUpInputMissing);
    }
    if Utf16Length(password) < 6 {
      assert SignUpRejection(users, email, password, name) == Some(WeakPassword);
      return Err(WeakPassword);
    }
    if EmailTaken(users, email) {
      assert SignUpRejection(users, email, password, name) == Some(EmailAlreadyInUse);
      return Err(EmailAlreadyInUse);
    }
    assert SignUpRejection(users, email, password, name).None?;
    var studentId := StudentIdFor(users, role);
    var newUser := User(newId, name, studentId, role, email, "", 0, password);
    assert newUser == NewAccount(users, newId, email, password, name, role);
    users := users + [newUser];
    store.fbUsers := users;
    var dwUsersList := store.dwUsers;
    dwUsersList := dwUsersList + [newUser];
    store.dwUsers := dwUsersList;
    var token := GenerateToken(newUser.id, now);
    store.fbCurrentUser := Some(WithoutPassword(newUser));
    store.fbSession := Some(token);
    r := Ok(AuthResponse(newUser, token));
  }

  /**
   * A sign-up keeps the ledger invariant of `dw_users` (to which `signUp` appends the new account
   * and whose ledger it leaves alone) when no transaction is recorded under the new id yet.
   */
  lemma SignUpKeepsLedgerConsistent(registered: seq<User>, users: seq<User>, txs: seq<Transaction>, id: string,
                                    email: string, password: string, name: string, role: Role)
    requires Consistent(users, txs)
    requires forall k :: 0 <= k < |txs| ==> txs[k].userId != id
    ensures Consistent(users + [NewAccount(registered, id, email, password, name, role)], txs)
  {
    NoTransactionsZeroBalance(txs, id);
    AddUserPreservesConsistency(users, txs, NewAccount(registered, id, email, password, name, role));
  }

  /** The list `signIn` searches: `fb_users`, or the legacy `dw_users` when `fb_users` is empty. */
  function SignInUsers(fbUsers: seq<User>, dwUsers: seq<User>): seq<User> {
    if |fbUsers| == 0 then dwUsers else fbUsers
  }

  /** The first account whose e-mail matches ignoring case and whose password matches exactly. */
  function SignInIndex(users: seq<User>, email: string, password: string): (r: Option<nat>)
    ensures r.Some? ==> r.value < |users| && SameEmail(users[r.value].email, email) && users[r.value].password == password
    ensures r.Some? ==> forall j :: 0 <= j < r.value ==> !(SameEmail(users[j].email, email) && users[j].password == password)
    ensures r.None? ==> forall j :: 0 <= j < |users| ==> !(SameEmail(users[j].email, email) && users[j].password == password)
  {
    if users == [] then None
    else if SameEmail(users[0].email, email) && users[0].password == password then Some(0)
    else match SignInIndex(users[1..], email, password)
      case None => None
      case Some(k) => Some(k + 1)
  }

  /** Appending an account that does not match leaves the first match where it was. */
  lemma {:induction false} SignInIndexAppend(users: seq<User>, u: User, email: string, password: string)
    ensures SignInIndex(users + [u], email, password) ==
      match SignInIndex(users, email, password)
      case Some(i) => Some(i)
      case None => if SameEmail(u.email, email) && u.password == password then Some(|users|) else None
  {
    if users != [] {
      assert (users + [u])[1..] == users[1..] + [u];
      SignInIndexAppend(users[1..], u, email, password);
    }
  }

  /**
   * Signing up and then signing in with the same password and the same e-mail in any letter case
   * finds the account just created.
   */
  lemma SignUpThenSignIn(users: seq<User>, id: string, email: string, email': string, password: string,
                         name: string, role: Role)
    requires SignUpRejection(users, email, password, name).None?
    requires SameEmail(email', email)
    ensures var u := NewAccount(users, id, email, password, name, role);
      SignInIndex(users + [u], email', password) == Some(|users|)
  {
    var u := NewAccount(users, id, email, password, name, role);
    forall j | 0 <= j < |users|
      ensures !SameEmail(users[j].email, email')
    {
      assert !SameEmail(users[j].email, email);
    }
    SignInIndexAppend(users, u, email', password);
  }

  /**
   * The mock API's `login` compares e-mails exactly, `signIn` ignoring case: credentials that the
   * exact comparison accepts on a list are accepted by `signIn`'s comparison on that list.
   */
  lemma ExactLoginSignsIn(users: seq<User>, email: string, password: string)
    requires MockApi.Login(users, email, password).Ok?
    ensures SignInIndex(users, email, password).Some?
  {
    var i := MockApi.CredentialIndex(users, email, password).value;
    assert SameEmail(users[i].email, email);
  }

  /**
   * `login` reads `dw_users` and `signIn` reads `fb_users`, falling back to `dw_users` while
   * `fb_users` is empty: before any migration, every `login` that succeeds is a `signIn` that does.
   */
  lemma LegacyLoginSignsIn(fbUsers: seq<User>, dwUsers: seq<User>, email: string, password: string)
    requires fbUsers == []
    requires MockApi.Login(dwUsers, email, password).Ok?
    ensures SignInIndex(SignInUsers(fbUsers, dwUsers), email, password).Some?
  {
    ExactLoginSignsIn(dwUsers, email, password);
  }

  /**
   * `signIn`: after the input check, migrate `dw_users` into an empty `fb_users` (this write
   * happens even when the credentials then fail), look the account up, and open a session.
   */
  method SignIn(store: LocalStore, email: string, password: string, now: int)
    returns (r: Result<AuthResponse, AuthError>)
    modifies store`fbUsers, store`fbCurrentUser, store`fbSession
    ensures email == [] || password == [] ==> r == Err(SignInInputMissing) && unchanged(store)
    ensures email != [] && password != [] ==>
      var users := SignInUsers(old(store.fbUsers), old(store.dwUsers));
      && store.fbUsers == users
      && match SignInIndex(users, email, password)
         case None =>
           && r == Err(InvalidCredentials)
           && store.fbCurrentUser == old(store.fbCurrentUser)
           && store.fbSession == old(store.fbSession)
         case Some(i) =>
           && r == Ok(AuthResponse(users[i], GenerateToken(users[i].id, now)))
           && store.fbCurrentUser == Some(WithoutPassword(users[i]))
           && store.fbSession == Some(GenerateToken(users[i].id, now))
    ensures r.Ok? ==> IsAuthenticated(store) && GetCurrentUser(store) == Some(WithoutPassword(r.value.user))
  {
    if email == [] || password == [] {
      return Err(SignInInputMissing);
    }
    var users := store.fbUsers;
    if |users| == 0 {
      users := store.dwUsers;
      store.fbUsers := users;
    }
    var index := SignInIndex(users, email, password);
    if index.None? {
      return Err(InvalidCredentials);
    }
    var user := users[index.value];
    var token := GenerateToken(user.id, now);
    store.fbCurrentUser := Some(WithoutPassword(user));
    store.fbSession := Some(token);
    r := Ok(AuthResponse(user, token));
  }

  /** `signOut`: removes the session user, the token and the legacy `currentUser` key. */
  method SignOut(store: LocalStore)
    modifies store`fbCurrentUser, store`fbSession, store`legacyCurrentUser
    ensures store.fbCurrentUser.None? && store.fbSession.None? && store.legacyCurrentUser.None?
    ensures !IsAuthenticated(store) && GetCurrentUser(store).None?
  {
    store.fbCurrentUser := None;
    store.fbSession := None;
    store.legacyCurrentUser := None;
  }

  /** `getCurrentUser`: the stored session user, or null. */
  function GetCurrentUser(store: LocalStore): Option<SessionUser>
    reads store
  {
    store.fbCurrentUser
  }

  /** `isAuthenticated`: a session token is stored (a generated token is never empty). */
  predicate IsAuthenticated(store: LocalStore)
    reads store
  {
    store.fbSession.Some?
  }

  /**
   * `updateProfile`: spreads `updates` over the first `fb_users` account with that id (`dw_users`
   * is not touched) and refreshes the session user exactly when it has that id.
   */
  method UpdateProfile(store: LocalStore, userId: string, updates: UserUpdates) returns (r: Result<User, AuthError>)
    modifies store`fbUsers, store`fbCurrentUser
    ensures UserIndex(old(store.fbUsers), userId).None? ==> r == Err(AuthUserNotFound) && unchanged(store)
    ensures UserIndex(old(store.fbUsers), userId).Some? ==>
      var i := UserIndex(old(store.fbUsers), userId).value;
      var updated := MergeUser(old(store.fbUsers)[i], updates);
      && r == Ok(updated)
      && store.fbUsers == old(store.fbUsers)[i := updated]
      && store.fbCurrentUser ==
           if old(store.fbCurrentUser).Some? && old(store.fbCurrentUser).value.id == userId
           then Some(WithoutPassword(updated))
           else old(store.fbCurrentUser)
  {
    var users := store.fbUsers;
    var index := UserIndex(users, userId);
    if index.None? {
      return Err(AuthUserNotFound);
    }
    var i := index.value;
    users := users[i := MergeUser(users[i], updates)];
    store.fbUsers := users;
    var currentUser := GetCurrentUser(store);
    if currentUser.Some? && currentUser.value.id == userId {
      store.fbCurrentUser := Some(WithoutPassword(users[i]));
    }
    r := Ok(users[i]);
  }
}
