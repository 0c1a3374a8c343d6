/**
 * Properties that relate several handler calls: duplicate signup, rotation,
 * and the end of sessions after logout-all and password change.
 */
module AuthProperties {
  import opened Wrappers
  import opened Roles
  import opened TokenStore
  import opened AuthController
  import Validators

  /** The empty store satisfies the invariant every handler preserves. */
  lemma EmptyStateWf()
    ensures Wf(State(map[], map[]))
  {
  }

  /** A second signup with an e-mail that signed up successfully fails with Conflict and changes nothing. */
  lemma SecondSignupConflicts(st: State, req: SignupRequest, req2: SignupRequest, h: Hasher,
                              id1: UserId, id2: UserId, now1: int, now2: int, pair1: TokenPair, pair2: TokenPair)
    requires Wf(st) && id1 !in st.users && pair1.refreshToken !in st.tokens
    requires !EmailTaken(st.users, req.email) && req2.email == req.email
    requires id2 !in st.users && id2 != id1
    requires pair2.refreshToken !in st.tokens && pair2.refreshToken != pair1.refreshToken
    ensures var st1 := Signup(st, req, h, id1, now1, pair1).next;
            Signup(st1, req2, h, id2, now2, pair2) == Step(Failure(Conflict(EMAIL_TAKEN_MSG)), st1)
  {
  }

  /** A role that passed the signup role rule is stored as it is, or defaults to planner: either way one of the role values. */
  lemma ValidatedRoleIsStored(role: Option<string>)
    requires Validators.RoleRule(role) == []
    ensures IsRole(RoleOrDefault(role))
    ensures role.Some? ==> RoleOrDefault(role) == role.value
  {
  }

  /** A signup whose body passed validation creates a user holding one of the role values. */
  lemma ValidatedSignupStoresARole(st: State, req: SignupRequest, h: Hasher, newId: UserId, now: int, pair: TokenPair)
    requires Wf(st) && newId !in st.users && pair.refreshToken !in st.tokens
    requires Validators.RoleRule(req.role) == []
    ensures var r := Signup(st, req, h, newId, now, pair);
            r.outcome.Success? ==> IsRole(r.next.users[newId].role)
  {
    ValidatedRoleIsStored(req.role);
  }

  /** A new user can log in with the password it signed up with, when the hasher verifies its own hashes. */
  lemma SignupThenLogin(st: State, req: SignupRequest, h: Hasher, id: UserId, now: int, pair1: TokenPair, pair2: TokenPair)
    requires Wf(st) && id !in st.users && pair1.refreshToken !in st.tokens
    requires !EmailTaken(st.users, req.email)
    requires h.verify(req.password, h.hash(req.password))
    requires pair2.refreshToken !in st.tokens && pair2.refreshToken != pair1.refreshToken
    ensures var st1 := Signup(st, req, h, id, now, pair1).next;
            var r := Login(st1, req.email, req.password, h, pair2);
            r.outcome.Success? && r.outcome.value.user.id == id
  {

  }

  /**
   * Rotation: after a successful refresh, presenting the old token again
   * fails, the new token is valid, and when it decodes to the same user it
   * can itself be exchanged.
   */
  lemma RotationInvalidatesPresented(st: State, presented: Token, decode: Token -> Option<UserId>,
                                     pair: TokenPair, pair2: TokenPair)
    requires Wf(st) && Refreshable(st, presented, decode)
    requires pair.refreshToken !in st.tokens
    requires pair2.refreshToken !in st.tokens && pair2.refreshToken != pair.refreshToken
    ensures var st1 := Refresh(st, presented, decode, pair).next;
            && Refresh(st1, presented, decode, pair2) == Step(Failure(AuthenticationError(INVALID_REFRESH_MSG)), st1)
            && IsValid(st1.tokens, pair.refreshToken)
            && (decode(pair.refreshToken) == decode(presented) ==> Refresh(st1, pair.refreshToken, decode, pair2).outcome.Success?)
  {
  }

  /** After logout-all, no record the caller owned can be exchanged any more. */
  lemma LogoutAllEndsSessions(st: State, callerId: UserId, decode: Token -> Option<UserId>, pair: TokenPair)
    requires Wf(st)
    requires pair.refreshToken !in st.tokens
    ensures var st1 := LogoutAll(st, callerId).next;
            forall t :: t in st.tokens && st.tokens[t].owner == callerId ==>
              Refresh(st1, t, decode, pair).outcome == Failure(AuthenticationError(INVALID_REFRESH_MSG))
  {
  }

  /**
   * After a password change: every refresh-token record of the caller is
   * dead, the new password logs in, and the old one no longer does (given a
   * hasher that verifies its own hashes and tells the two passwords apart).
   */
  lemma ChangePasswordEndsSessions(st: State, callerId: UserId, current: string, newPassword: string, h: Hasher,
                                   decode: Token -> Option<UserId>, pair: TokenPair)
    requires Wf(st) && callerId in st.users && st.users[callerId].active
    requires h.verify(current, st.users[callerId].credential)
    requires pair.refreshToken !in st.tokens
    requires h.verify(newPassword, h.hash(newPassword))
    requires !h.verify(current, h.hash(newPassword))
    ensures var st1 := ChangePassword(st, callerId, current, newPassword, h).next;
            var email := st.users[callerId].email;
            && (forall t :: t in st.tokens && st.tokens[t].owner == callerId ==> !Refreshable(st1, t, decode))
            && Login(st1, email, newPassword, h, pair).outcome.Success?
            && Login(st1, email, current, h, pair).outcome.Failure?
            && !Login(st, email, current, h, pair).outcome.Failure?
  {

  }
}
