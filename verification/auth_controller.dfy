/**
 * The session-lifecycle handlers (signup, login, refresh, logout, logout from
 * all devices, profile read and update, password change) as pure transitions
 * over the user records and the refresh-token records.
 */
module AuthController {
  import opened Wrappers
  import opened Js
  import opened Roles
  import opened TokenStore

  /** An opaque password credential (the stored hash). */
  datatype Credential = Credential(digest: string)

  /** A user record of the credential store. */
  datatype User = User(
    id: UserId, email: string, fullName: string, role: RoleName, phoneNumber: Option<string>,
    active: bool, emailVerified: bool, createdAt: int, credential: Credential)

  /** Everything the handlers read or write: users by id and refresh-token records by token. */
  datatype State = State(users: map<UserId, User>, tokens: Store)

  /** No two users share an e-mail address. */
  ghost predicate EmailsUnique(users: map<UserId, User>)
  {
    forall a, b :: a in users && b in users && users[a].email == users[b].email ==> a == b
  }

  /**
   * The store invariant: every user is stored under its own id, e-mails are
   * unique, and every refresh-token record belongs to a registered user.
   */
  ghost predicate Wf(st: State)
  {
    && (forall id :: id in st.users ==> st.users[id].id == id)
    && EmailsUnique(st.users)
    && (forall t :: t in st.tokens ==> st.tokens[t].owner in st.users)
  }

  /** The password hashing capability: one-way hash and verification, both taken as given. */
  datatype Hasher = Hasher(hash: string -> Credential, verify: (string, Credential) -> bool)

  /** The profile subset returned by signup, login and profile update. */
  datatype Profile = Profile(id: UserId, email: string, fullName: string, role: RoleName, phoneNumber: Option<string>)

  /** The profile returned by the "current user" handler. */
  datatype FullProfile = FullProfile(profile: Profile, emailVerified: bool, createdAt: int)

  /** An access token and a refresh token issued together. */
  datatype TokenPair = TokenPair(accessToken: Token, refreshToken: Token)

  /** The body of a successful signup or login. */
  datatype Session = Session(user: Profile, tokens: TokenPair)

  /** The error classes the handlers throw. */
  datatype AuthError = Conflict(message: string) | AuthenticationError(message: string) | NotFound(message: string)

  /** A handler's outcome together with the state it leaves behind. */
  datatype Step<+T> = Step(outcome: Result<T, AuthError>, next: State)

  const EMAIL_TAKEN_MSG := "User with this email already exists"
  const INVALID_CREDENTIALS_MSG := "Invalid email or password"
  const DEACTIVATED_MSG := "Account is deactivated. Please contact support."
  const INVALID_REFRESH_MSG := "Invalid or expired refresh token"
  const USER_INACTIVE_MSG := "User not found or inactive"
  const USER_NOT_FOUND_MSG := "User not found"
  const WRONG_CURRENT_PASSWORD_MSG := "Current password is incorrect"

  /** The profile subset of a user record; the credential is never part of it. */
  function ProfileOf(u: User): Profile
  {
    Profile(u.id, u.email, u.fullName, u.role, u.phoneNumber)
  }

  /** Some user is registered with this e-mail. */
  predicate EmailTaken(users: map<UserId, User>, email: string)
  {
    exists id :: id in users && users[id].email == email
  }

  /** `User.findByEmail`: the one user with this e-mail, if any. */
  function FindByEmail(users: map<UserId, User>, email: string): (r: Option<UserId>)
    requires EmailsUnique(users)
    ensures r.Some? <==> EmailTaken(users, email)
    ensures r.Some? ==> r.value in users && users[r.value].email == email
  {
    if EmailTaken(users, email) then
      var id :| id in users && users[id].email == email; Some(id)
    else None
  }

  /**
   * The token records after `t` has been issued to `uid`: one new, valid
   * record for `uid` and nothing else changed.
   */
  ghost predicate IssuedTo(before: Store, after: Store, t: Token, uid: UserId)
  {
    && after.Keys == before.Keys + {t}
    && IsValid(after, t) && after[t].owner == uid
    && (forall k :: k in before ==> after[k] == before[k])
  }

  /** The signup request body, as the handler reads it. */
  datatype SignupRequest = SignupRequest(
    email: string, password: string, fullName: string, role: Option<string>, phoneNumber: Option<string>)

  /** The role a new user gets: the supplied one when truthy, otherwise planner. */
  function RoleOrDefault(role: Option<string>): (r: RoleName)
    ensures Present(role) ==> r == role.value
    ensures !Present(role) ==> r == PLANNER
  {
    if Present(role) then role.value else PLANNER
  }

  /**
   * signup: Conflict when the e-mail is registered; otherwise a new active
   * user with the hashed password and the supplied or default role, and a
   * fresh refresh token stored for it. `newId`, `now` and `pair` are what the
   * user store, the clock and the token generator supply.
   */
  function Signup(st: State, req: SignupRequest, h: Hasher, newId: UserId, now: int, pair: TokenPair): (r: Step<Session>)
    requires Wf(st)
    requires newId !in st.users
    requires pair.refreshToken !in st.tokens
    ensures Wf(r.next)
    ensures r.outcome.Failure? <==> EmailTaken(st.users, req.email)
    ensures r.outcome.Failure? ==> r.outcome.error == Conflict(EMAIL_TAKEN_MSG) && r.next == st
    ensures r.outcome.Success? ==>
              && r.next.users.Keys == st.users.Keys + {newId}
              && (forall id :: id in st.users ==> r.next.users[id] == st.users[id])
              && var u := r.next.users[newId];
              && u.email == req.email && u.fullName == req.fullName && u.phoneNumber == req.phoneNumber
              && u.role == RoleOrDefault(req.role) && u.active
              && u.credential == h.hash(req.password)
              && r.outcome.value == Session(ProfileOf(u), pair)
              && IssuedTo(st.tokens, r.next.tokens, pair.refreshToken, newId)
  {
    if EmailTaken(st.users, req.email) then
      Step(Failure(Conflict(EMAIL_TAKEN_MSG)), st)
    else
      var u := User(newId, req.email, req.fullName, RoleOrDefault(req.role), req.phoneNumber,
                    true, false, now, h.hash(req.password));
      var next := State(st.users[newId := u], Put(st.tokens, newId, pair.refreshToken));
      assert EmailsUnique(next.users);
      Step(Success(Session(ProfileOf(u), pair)), next)
  }

  /** The user registered with `email`, active, whose credential accepts `password`. */
  ghost predicate CredentialsAccepted(st: State, email: string, password: string, h: Hasher)
  {
    exists id :: id in st.users && st.users[id].email == email && st.users[id].active
                 && h.verify(password, st.users[id].credential)
  }

  /** A user registered with `email` is deactivated. */
  ghost predicate Deactivated(st: State, email: string)
  {
    exists id :: id in st.users && st.users[id].email == email && !st.users[id].active
  }

  /**
   * login: AuthenticationError, with one shared message for an unknown e-mail
   * and a wrong password and a different one for a deactivated account;
   * otherwise a fresh refresh token is stored for the user.
   */
  function Login(st: State, email: string, password: string, h: Hasher, pair: TokenPair): (r: Step<Session>)
    requires Wf(st)
    requires pair.refreshToken !in st.tokens
    ensures Wf(r.next)
    ensures r.outcome.Success? <==> CredentialsAccepted(st, email, password, h)
    ensures r.outcome.Failure? ==> r.outcome.error.AuthenticationError? && r.next == st
    ensures r.outcome.Failure? ==> (r.outcome.error.message == DEACTIVATED_MSG <==> Deactivated(st, email))
    ensures r.outcome.Failure? && !Deactivated(st, email) ==> r.outcome.error.message == INVALID_CREDENTIALS_MSG
    ensures r.outcome.Success? ==>
              && r.next.users == st.users
              && var s := r.outcome.value;
              && s.user.id in st.users && s.user == ProfileOf(st.users[s.user.id])
              && s.user.email == email && s.tokens == pair
              && IssuedTo(st.tokens, r.next.tokens, pair.refreshToken, s.user.id)
  {
    match FindByEmail(st.users, email)
    case None =>
      Step(Failure(AuthenticationError(INVALID_CREDENTIALS_MSG)), st)
    case Some(id) =>
      var u := st.users[id];
      if !u.active then
        Step(Failure(AuthenticationError(DEACTIVATED_MSG)), st)
      else if !h.verify(password, u.credential) then
        Step(Failure(AuthenticationError(INVALID_CREDENTIALS_MSG)), st)
      else
        Step(Success(Session(ProfileOf(u), pair)), State(st.users, Put(st.tokens, u.id, pair.refreshToken)))
  }

  /**
   * The conditions under which `presented` can be exchanged: it decodes to a
   * user id, its record is valid, and that user exists and is active.
   */
  ghost predicate Refreshable(st: State, presented: Token, decode: Token -> Option<UserId>)
  {
    && decode(presented).Some?
    && IsValid(st.tokens, presented)
    && decode(presented).value in st.users
    && st.users[decode(presented).value].active
  }

  /**
   * refreshToken: AuthenticationError when the token does not decode, its
   * record is missing or revoked, or its user is missing or inactive;
   * otherwise the presented record is revoked and a new one is stored for
   * the same user. `decode` is the refresh-token verification.
   */
  function Refresh(st: State, presented: Token, decode: Token -> Option<UserId>, pair: TokenPair): (r: Step<TokenPair>)
    requires Wf(st)
    requires pair.refreshToken !in st.tokens
    ensures Wf(r.next)
    ensures r.outcome.Success? <==> Refreshable(st, presented, decode)
    ensures r.outcome.Failure? ==> r.outcome.error.AuthenticationError? && r.next == st
    ensures r.outcome.Failure? ==>
              (r.outcome.error.message == INVALID_REFRESH_MSG <==> decode(presented).None? || !IsValid(st.tokens, presented))
    ensures r.outcome.Success? ==>
              && r.outcome.value == pair
              && r.next.users == st.users
              && r.next.tokens.Keys == st.tokens.Keys + {pair.refreshToken}
              && presented in st.tokens && !IsValid(r.next.tokens, presented)
              && r.next.tokens[presented].owner == st.tokens[presented].owner
              && IsValid(r.next.tokens, pair.refreshToken)
              && r.next.tokens[pair.refreshToken].owner == decode(presented).value
              && (forall k :: k in st.tokens && k != presented ==> r.next.tokens[k] == st.tokens[k])
  {
    match decode(presented)
    case None =>
      Step(Failure(AuthenticationError(INVALID_REFRESH_MSG)), st)
    case Some(uid) =>
      if !IsValid(st.tokens, presented) then
        Step(Failure(AuthenticationError(INVALID_REFRESH_MSG)), st)
      else if uid !in st.users || !st.users[uid].active then
        Step(Failure(AuthenticationError(USER_INACTIVE_MSG)), st)
      else
        var u := st.users[uid];
        var tokens := Put(Revoke(st.tokens, presented), u.id, pair.refreshToken);
        Step(Success(pair), State(st.users, tokens))
  }

  /**
   * logout: always succeeds; a truthy token has its record revoked, and no
   * other record changes (the token need not belong to the caller).
   */
  function Logout(st: State, token: Option<string>): (r: Step<()>)
    requires Wf(st)
    ensures Wf(r.next)
    ensures r.outcome.Success?
    ensures r.next.users == st.users
    ensures !Present(token) ==> r.next == st
    ensures Present(token) ==> r.next.tokens == Revoke(st.tokens, token.value)
    ensures Present(token) ==> !IsValid(r.next.tokens, token.value)
    ensures r.next.tokens.Keys == st.tokens.Keys
    ensures forall k :: k in st.tokens && !(Present(token) && k == token.value) ==> r.next.tokens[k] == st.tokens[k]
  {
    if Present(token) then Step(Success(()), State(st.users, Revoke(st.tokens, token.value)))
    else Step(Success(()), st)
  }

  /** logoutAll: every record of the caller is revoked and no other user's record changes. */
  function LogoutAll(st: State, callerId: UserId): (r: Step<()>)
    requires Wf(st)
    ensures Wf(r.next)
    ensures r.outcome.Success?
    ensures r.next.users == st.users
    ensures r.next.tokens == RevokeAll(st.tokens, callerId)
    ensures r.next.tokens.Keys == st.tokens.Keys
    ensures forall k :: k in st.tokens && st.tokens[k].owner == callerId ==> !IsValid(r.next.tokens, k)
    ensures forall k :: k in st.tokens && st.tokens[k].owner != callerId ==> r.next.tokens[k] == st.tokens[k]
  {
    Step(Success(()), State(st.users, RevokeAll(st.tokens, callerId)))
  }

  /** getProfile: NotFound when the caller's record is gone; reads only. */
  function GetProfile(st: State, callerId: UserId): (r: Step<FullProfile>)
    requires Wf(st)
    ensures r.next == st
    ensures r.outcome.Success? <==> callerId in st.users
    ensures r.outcome.Failure? ==> r.outcome.error == NotFound(USER_NOT_FOUND_MSG)
    ensures r.outcome.Success? ==>
              var u := st.users[callerId];
              r.outcome.value.profile == ProfileOf(u) && r.outcome.value.profile.id == callerId
              && r.outcome.value.emailVerified == u.emailVerified && r.outcome.value.createdAt == u.createdAt
  {
    if callerId !in st.users then Step(Failure(NotFound(USER_NOT_FOUND_MSG)), st)
    else
      var u := st.users[callerId];
      Step(Success(FullProfile(ProfileOf(u), u.emailVerified, u.createdAt)), st)
  }

  /**
   * updateProfile: only a truthy fullName and a truthy phoneNumber are
   * applied; nothing else about any user, and no token record, changes.
   */
  function UpdateProfile(st: State, callerId: UserId, fullName: Option<string>, phoneNumber: Option<string>)
    : (r: Step<Profile>)
    requires Wf(st)
    ensures Wf(r.next)
    ensures r.outcome.Success? <==> callerId in st.users
    ensures r.outcome.Failure? ==> r.outcome.error == NotFound(USER_NOT_FOUND_MSG) && r.next == st
    ensures r.next.tokens == st.tokens
    ensures r.next.users.Keys == st.users.Keys
    ensures forall id :: id in st.users && id != callerId ==> r.next.users[id] == st.users[id]
    ensures r.outcome.Success? ==>
              var prev := st.users[callerId];
              var u := r.next.users[callerId];
              && u == prev.(fullName := u.fullName, phoneNumber := u.phoneNumber)
              && u.fullName == (if Present(fullName) then fullName.value else prev.fullName)
              && u.phoneNumber == (if Present(phoneNumber) then phoneNumber else prev.phoneNumber)
              && r.outcome.value == ProfileOf(u)
  {
    if callerId !in st.users then Step(Failure(NotFound(USER_NOT_FOUND_MSG)), st)
    else
      var prev := st.users[callerId];
      var withName := if Present(fullName) then prev.(fullName := fullName.value) else prev;
      var u := if Present(phoneNumber) then withName.(phoneNumber := phoneNumber) else withName;
      var next := State(st.users[callerId := u], st.tokens);
      assert EmailsUnique(next.users);
      Step(Success(ProfileOf(u)), next)
  }

  /**
   * changePassword: AuthenticationError, nothing changed, when the current
   * password does not verify; otherwise the credential becomes the hash of
   * the new password and every refresh-token record of the caller is revoked,
   * other users' records untouched. The caller's record must exist.
   */
  function ChangePassword(st: State, callerId: UserId, currentPassword: string, newPassword: string, h: Hasher)
    : (r: Step<()>)
    requires Wf(st)
    requires callerId in st.users
    ensures Wf(r.next)
    ensures r.outcome.Success? <==> h.verify(currentPassword, st.users[callerId].credential)
    ensures r.outcome.Failure? ==> r.outcome.error == AuthenticationError(WRONG_CURRENT_PASSWORD_MSG) && r.next == st
    ensures r.outcome.Success? ==>
              && r.next.users.Keys == st.users.Keys
              && r.next.users[callerId] == st.users[callerId].(credential := h.hash(newPassword))
              && (forall id :: id in st.users && id != callerId ==> r.next.users[id] == st.users[id])
              && r.next.tokens == RevokeAll(st.tokens, callerId)
              && r.next.tokens.Keys == st.tokens.Keys
              && (forall k :: k in st.tokens && st.tokens[k].owner == callerId ==> !IsValid(r.next.tokens, k))
              && (forall k :: k in st.tokens && st.tokens[k].owner != callerId ==> r.next.tokens[k] == st.tokens[k])
  {
    var u := st.users[callerId];
    if !h.verify(currentPassword, u.credential) then
      Step(Failure(AuthenticationError(WRONG_CURRENT_PASSWORD_MSG)), st)
    else
      var users := st.users[callerId := u.(credential := h.hash(newPassword))];
      assert EmailsUnique(users);
      Step(Success(()), State(users, RevokeAll(st.tokens, callerId)))
  }
}
