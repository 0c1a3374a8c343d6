/**
 * One concrete run: signup of a@x.com with password Abcd1234, a refused
 * login with a wrong password, a successful login, one rotation of the
 * signup's refresh token and a refused replay of the rotated-away token.
 * The hasher here stores the password itself, which is enough to exercise
 * the handlers' control flow.
 */
module Walkthrough {
  import opened Wrappers
  import opened Roles
  import opened TokenStore
  import opened AuthController
  import Validators

  const H: Hasher := Hasher(p => Credential(p), (p, c) => c == Credential(p))

  /** The refresh-token decoder of this run: every token belongs to u1. */
  function DecodeU1(t: Token): Option<UserId>
  {
    Some("u1")
  }

  const SIGNUP := SignupRequest("a@x.com", "Abcd1234", "A B", None, None)
  const U1 := User("u1", "a@x.com", "A B", PLANNER, None, true, false, 0, Credential("Abcd1234"))

  const S0 := State(map[], map[])
  const S1 := State(map["u1" := U1], map["refresh-1" := Record("u1", false)])
  const S2 := State(map["u1" := U1], map["refresh-1" := Record("u1", false), "refresh-2" := Record("u1", false)])
  const S3 := State(map["u1" := U1], map["refresh-1" := Record("u1", true), "refresh-2" := Record("u1", false),
                                          "refresh-3" := Record("u1", false)])

  /** The signup body passes every signup rule (given that the e-mail check accepts the address). */
  lemma SignupBodyAccepted(lib: Validators.Library)
    requires lib.isEmail("a@x.com")
    ensures Validators.SignupErrors(Validators.SignupBody(Some("a@x.com"), Some("Abcd1234"), Some("A B"), None, None, None), lib) == []
  {
    var b := Validators.SignupBody(Some("a@x.com"), Some("Abcd1234"), Some("A B"), None, None, None);
    assert Validators.Text(b.email) == "a@x.com";
    assert Validators.Text(b.password) == "Abcd1234";
    assert Validators.Text(b.fullName) == "A B";
    PasswordIsStrong();
    FullNameFits();
  }

  /** "A B" has no surrounding white space and three characters. */
  lemma FullNameFits()
    ensures 2 <= |Validators.Trim("A B")| <= 100
  {
    var name := "A B";
    assert |name| == 3 && name[0] == 'A' && name[2] == 'B';
    assert !Validators.IsSpace('A') && !Validators.IsSpace('B');
    Validators.TrimOfTrimmed(name);
  }

  /** Abcd1234 has eight characters, a lower-case letter, an upper-case letter and a digit on its one line. */
  lemma PasswordIsStrong()
    ensures Validators.StrongPassword("Abcd1234")
  {
    var s := "Abcd1234";
    assert Validators.InClass(s[0], Validators.Upper) && Validators.OnFirstLine(s, 0);
    assert Validators.InClass(s[1], Validators.Lower) && Validators.OnFirstLine(s, 1);
    assert Validators.InClass(s[4], Validators.Digit) && Validators.OnFirstLine(s, 4);
  }

  /** Signup creates u1 with the default planner role and stores refresh-1. */
  lemma SignupStep()
    ensures Wf(S0) && Wf(S1)
    ensures Signup(S0, SIGNUP, H, "u1", 0, TokenPair("access-1", "refresh-1"))
            == Step(Success(Session(ProfileOf(U1), TokenPair("access-1", "refresh-1"))), S1)
    ensures U1.role == PLANNER
  {
  }

  /** A wrong password is refused with the shared message and stores nothing. */
  lemma WrongPasswordStep()
    ensures Wf(S1)
    ensures Login(S1, "a@x.com", "wrong", H, TokenPair("access-2", "refresh-2"))
            == Step(Failure(AuthenticationError(INVALID_CREDENTIALS_MSG)), S1)
  {

  }

  /** The right password logs in and stores refresh-2. */
  lemma LoginStep()
    ensures Wf(S1)
    ensures Login(S1, "a@x.com", "Abcd1234", H, TokenPair("access-2", "refresh-2"))
            == Step(Success(Session(ProfileOf(U1), TokenPair("access-2", "refresh-2"))), S2)
  {
    assert S1.users.Keys == {"u1"};
    assert EmailTaken(S1.users, "a@x.com") by {
      assert S1.users["u1"].email == "a@x.com";
    }
  }

  /** refresh-1 is exchanged for refresh-3 and revoked. */
  lemma RotateStep()
    ensures Wf(S2)
    ensures Refresh(S2, "refresh-1", DecodeU1, TokenPair("access-3", "refresh-3"))
            == Step(Success(TokenPair("access-3", "refresh-3")), S3)
  {
    var revoked := Revoke(S2.tokens, "refresh-1");
    assert revoked == map["refresh-1" := Record("u1", true), "refresh-2" := Record("u1", false)];
    assert Put(revoked, "u1", "refresh-3") == S3.tokens;
  }

  /** Replaying refresh-1 after its rotation is refused and changes nothing. */
  lemma ReplayStep()
    ensures Wf(S3)
    ensures Refresh(S3, "refresh-1", DecodeU1, TokenPair("access-4", "refresh-4"))
            == Step(Failure(AuthenticationError(INVALID_REFRESH_MSG)), S3)
  {
  }
}
