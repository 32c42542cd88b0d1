/** The account lifecycle of controllers/auth.controller.js as a state machine
    over `user` rows: registration (or re-registration of an unverified
    email), email verification, resending the code, login and password
    change, plus the six-digit verification code. Hashing is `Schema.Hash`,
    the random draw and the email validator's verdict are parameters, and a
    sent email is a `Mail` appended to the outbox. */
module Accounts {
  import opened Common
  import opened Schema

  const CodeMin: nat := 100000
  const CodeMax: nat := 999999

  /** The number of codes `generateVerificationCode` can produce. */
  const CodeCount: nat := CodeMax - CodeMin + 1

  lemma SixDigitBounds()
    ensures Pow10(5) == CodeMin && Pow10(6) == CodeMax + 1
  {
    assert Pow10(1) == 10;
    assert Pow10(2) == 100;
    assert Pow10(3) == 1000;
    assert Pow10(4) == 10000;
  }

  /** `generateVerificationCode`, with `draw` standing for
      `Math.floor(Math.random() * 900000)`: the decimal text of `100000 + draw`. */
  function VerificationCode(draw: nat): (code: string)
    requires draw < CodeCount
    ensures |code| == 6 && AllDigits(code) && code[0] != '0'
    ensures DecimalValue(code) == CodeMin + draw
    ensures CodeMin <= DecimalValue(code) <= CodeMax
  {
    SixDigitBounds();
    DecimalLength(CodeMin + draw, 6);
    DecimalRoundTrip(CodeMin + draw);
    DecimalString(CodeMin + draw)
  }

  /** Distinct draws give distinct codes. */
  lemma VerificationCodeInjective(a: nat, b: nat)
    requires a < CodeCount && b < CodeCount && a != b
    ensures VerificationCode(a) != VerificationCode(b)
  {
    assert DecimalValue(VerificationCode(a)) != DecimalValue(VerificationCode(b));
  }

  // ---------------------------------------------------------------------------
  // registerUser

  datatype Registration = Resent | Registered

  /** The checks before any lookup: a falsy field, an email the validator
      refuses, or a confirmation that differs from the password. */
  predicate RegistrationRejected(username: string, email: string, password: string, confirmPassword: string, emailValid: bool) {
    username == "" || email == "" || password == "" || confirmPassword == "" || !emailValid || password != confirmPassword
  }

  /** The email belongs to a user who has not verified it yet. */
  predicate UnverifiedEmail(us: seq<User>, email: string) {
    match UserByEmail(us, email)
    case Some(e) => !us[e].isVerified
    case None => false
  }

  /** The username is held by a user other than the email's owner. */
  predicate UsernameHeldByOther(us: seq<User>, email: string, username: string) {
    match UserByUsername(us, username)
    case Some(n) => UserByEmail(us, email) != Some(n)
    case None => false
  }

  /** The email or the username is already in use, and not by an unverified
      owner of this email. */
  predicate RegistrationTaken(us: seq<User>, email: string, username: string) {
    match UserByEmail(us, email)
    case Some(e) => us[e].isVerified
    case None => UserByUsername(us, username).Some?
  }

  /** The row `registerUser` creates: unverified, with a code and no family. */
  function NewUser(us: seq<User>, username: string, email: string, password: string, code: string): (u: User)
    ensures u.id == |us| + 1 && !u.isVerified && u.password == Hash(password)
    ensures u.verificationCode == Some(code) && u.familyId.None?
  {
    User(|us| + 1, username, email, Hash(password), false, Some(code), None, None)
  }

  lemma {:induction false} NewUserKeepsKeys(us: seq<User>, u: User)
    requires UsersValid(us) && u.id == |us| + 1
    requires forall j :: 0 <= j < |us| ==> us[j].email != u.email && us[j].username != u.username
    ensures UsersValid(us + [u])
  {
    var r := us + [u];
    forall a, b | 0 <= a < b < |r|
      ensures r[a].email != r[b].email && r[a].username != r[b].username
    {
      assert r[a] == us[a];
      if b < |us| {
        assert r[b] == us[b];
      }
    }
  }

  lemma RewriteKeepsKeys(us: seq<User>, i: nat, u: User)
    requires UsersValid(us) && i < |us| && u.id == us[i].id
    requires forall j :: 0 <= j < |us| && j != i ==> us[j].email != u.email && us[j].username != u.username
    ensures UsersValid(us[i := u])
  {
    var r := us[i := u];
    forall a, b | 0 <= a < b < |r|
      ensures r[a].email != r[b].email && r[a].username != r[b].username
    {
      if a != i && b != i {
        assert r[a] == us[a] && r[b] == us[b];
      }
    }
  }

  /** `registerUser`. An existing unverified email is re-registered in place
      (new username, password and code); otherwise a taken email or username
      is refused and a fresh unverified user is created. */
  method RegisterUser(db: Database, username: string, email: string, password: string, confirmPassword: string, emailValid: bool, draw: nat)
    returns (r: Outcome<Registration>)
    requires db.Valid()
    requires draw < CodeCount
    modifies db
    ensures db.Valid()
    ensures db.families == old(db.families) && db.members == old(db.members) && db.transactions == old(db.transactions)
    ensures r == Err(BadRequest) <==>
      || RegistrationRejected(username, email, password, confirmPassword, emailValid)
      || (!UnverifiedEmail(old(db.users), email) && RegistrationTaken(old(db.users), email, username))
    ensures r == Err(ServerError) <==>
      && !RegistrationRejected(username, email, password, confirmPassword, emailValid)
      && UnverifiedEmail(old(db.users), email) && UsernameHeldByOther(old(db.users), email, username)
    ensures r.Ok? || r == Err(BadRequest) || r == Err(ServerError)
    ensures r.Err? ==> db.users == old(db.users) && db.outbox == old(db.outbox)
    ensures r == Ok(Resent) <==>
      && !RegistrationRejected(username, email, password, confirmPassword, emailValid)
      && UnverifiedEmail(old(db.users), email) && !UsernameHeldByOther(old(db.users), email, username)
    ensures r.Ok? ==> db.outbox == old(db.outbox) + [Mail(email, VerificationCode(draw))]
    ensures r == Ok(Resent) ==> UserByEmail(old(db.users), email).Some?
    ensures r == Ok(Resent) ==>
      var e := UserByEmail(old(db.users), email).value;
      db.users == old(db.users)[e := old(db.users)[e].(username := username, password := Hash(password), verificationCode := Some(VerificationCode(draw)))]
    ensures r == Ok(Registered) ==>
      db.users == old(db.users) + [NewUser(old(db.users), username, email, password, VerificationCode(draw))]
  {
    if username == "" || email == "" || password == "" || confirmPassword == "" {
      return Err(BadRequest);
    }
    if !emailValid {
      return Err(BadRequest);
    }
    if password != confirmPassword {
      return Err(BadRequest);
    }
    var byEmail := UserByEmail(db.users, email);
    var byUsername := UserByUsername(db.users, username);
    if byEmail.Some? && !db.users[byEmail.value].isVerified {
      var code := VerificationCode(draw);
      var e := byEmail.value;
      if byUsername.Some? && byUsername.value != e {
        // the update would give a second row this username: the unique
        // constraint rejects it and nothing is written
        return Err(ServerError);
      }
      var updated := db.users[e].(username := username, password := Hash(password), verificationCode := Some(code));
      forall j | 0 <= j < |db.users| && j != e
        ensures db.users[j].email != updated.email && db.users[j].username != updated.username
      {
        if j < e { assert db.users[j].email != db.users[e].email; }
        else { assert db.users[e].email != db.users[j].email; }
      }
      RewriteKeepsKeys(db.users, e, updated);
      db.users := db.users[e := updated];
      db.outbox := db.outbox + [Mail(email, code)];
      return Ok(Resent);
    }
    if byEmail.Some? || byUsername.Some? {
      return Err(BadRequest);
    }
    var code := VerificationCode(draw);
    var user := NewUser(db.users, username, email, password, code);
    NewUserKeepsKeys(db.users, user);
    db.users := db.users + [user];
    db.outbox := db.outbox + [Mail(email, code)];
    r := Ok(Registered);
  }

  // ---------------------------------------------------------------------------
  // verifyUser and resendVerificationCode

  /** `verifyUser`: the stored code must equal the one sent; success marks the
      user verified and clears the code. */
  method VerifyUser(db: Database, email: string, code: string) returns (r: Outcome<()>)
    requires db.Valid()
    modifies db
    ensures db.Valid()
    ensures db.families == old(db.families) && db.members == old(db.members)
    ensures db.transactions == old(db.transactions) && db.outbox == old(db.outbox)
    ensures r == Err(BadRequest) <==> email == "" || code == ""
    ensures r == Err(NotFound) <==> email != "" && code != "" && UserByEmail(old(db.users), email).None?
    ensures r == Err(Unauthorized) <==>
      && email != "" && code != "" && UserByEmail(old(db.users), email).Some?
      && old(db.users)[UserByEmail(old(db.users), email).value].verificationCode != Some(code)
    ensures r.Ok? || r == Err(BadRequest) || r == Err(NotFound) || r == Err(Unauthorized)
    ensures r.Err? ==> db.users == old(db.users)
    ensures r.Ok? ==> UserByEmail(old(db.users), email).Some?
    ensures r.Ok? ==>
      var i := UserByEmail(old(db.users), email).value;
      db.users == old(db.users)[i := old(db.users)[i].(isVerified := true, verificationCode := None)]
  {
    if email == "" || code == "" {
      return Err(BadRequest);
    }
    var found := UserByEmail(db.users, email);
    if found.None? {
      return Err(NotFound);
    }
    var i := found.value;
    if db.users[i].verificationCode != Some(code) {
      return Err(Unauthorized);
    }
    var updated := db.users[i].(isVerified := true, verificationCode := None);
    RewriteKeepsKeys(db.users, i, updated);
    db.users := db.users[i := updated];
    r := Ok(());
  }

  /** A code verifies at most once: the second attempt with the same code
      finds the code cleared and is refused. */
  method VerifyTwice(db: Database, email: string, code: string) returns (first: Outcome<()>, second: Outcome<()>)
    requires db.Valid()
    modifies db
    ensures db.Valid()
    ensures first.Ok? ==> second == Err(Unauthorized)
  {
    first := VerifyUser(db, email, code);
    if first.Ok? {
      var i := UserByEmail(old(db.users), email).value;
      assert db.users[i].email == email && db.users[i].verificationCode.None?;
      assert UserByEmail(db.users, email) == Some(i);
    }
    second := VerifyUser(db, email, code);
  }

  /** `resendVerificationCode`: a known, unverified user gets a new code and a
      new email; nothing else changes. */
  method ResendVerificationCode(db: Database, email: string, draw: nat) returns (r: Outcome<()>)
    requires db.Valid()
    requires draw < CodeCount
    modifies db
    ensures db.Valid()
    ensures db.families == old(db.families) && db.members == old(db.members) && db.transactions == old(db.transactions)
    ensures r == Err(BadRequest) <==>
      || email == ""
      || (UserByEmail(old(db.users), email).Some? && old(db.users)[UserByEmail(old(db.users), email).value].isVerified)
    ensures r == Err(NotFound) <==> email != "" && UserByEmail(old(db.users), email).None?
    ensures r.Ok? || r == Err(BadRequest) || r == Err(NotFound)
    ensures r.Err? ==> db.users == old(db.users) && db.outbox == old(db.outbox)
    ensures r.Ok? ==> UserByEmail(old(db.users), email).Some?
    ensures r.Ok? ==>
      var i := UserByEmail(old(db.users), email).value;
      && db.users == old(db.users)[i := old(db.users)[i].(verificationCode := Some(VerificationCode(draw)))]
      && db.outbox == old(db.outbox) + [Mail(email, VerificationCode(draw))]
  {
    if email == "" {
      return Err(BadRequest);
    }
    var found := UserByEmail(db.users, email);
    if found.None? {
      return Err(NotFound);
    }
    var i := found.value;
    if db.users[i].isVerified {
      return Err(BadRequest);
    }
    var code := VerificationCode(draw);
    var updated := db.users[i].(verificationCode := Some(code));
    RewriteKeepsKeys(db.users, i, updated);
    db.users := db.users[i := updated];
    db.outbox := db.outbox + [Mail(email, code)];
    r := Ok(());
  }

  // ---------------------------------------------------------------------------
  // loginUser

  /** What a login answers with besides the token `generateToken(id)` signs. */
  datatype Session = Session(userId: nat, username: string, email: string)

  /** The three refusals of `loginUser`, told apart by their messages. */
  datatype LoginError = MissingCredentials | InvalidCredentials | NotVerified

  function LoginErrorKind(e: LoginError): (k: ErrorKind)
    ensures k == BadRequest <==> e == MissingCredentials
    ensures k != BadRequest ==> k == Unauthorized
  {
    match e
    case MissingCredentials => BadRequest
    case InvalidCredentials => Unauthorized
    case NotVerified => Unauthorized
  }

  /** `loginUser`: find by email, else by username; the password is compared
      before the verified flag is looked at. */
  function Login(us: seq<User>, identifier: string, password: string): (r: Result<Session, LoginError>)
    ensures r == Err(MissingCredentials) <==> identifier == "" || password == ""
    ensures r == Err(InvalidCredentials) <==>
      && identifier != "" && password != ""
      && (UserByIdentifier(us, identifier).None? || us[UserByIdentifier(us, identifier).value].password != Hash(password))
    ensures r == Err(NotVerified) ==> us[UserByIdentifier(us, identifier).value].password == Hash(password)
    ensures r.Ok? <==>
      && identifier != "" && password != ""
      && UserByIdentifier(us, identifier).Some?
      && us[UserByIdentifier(us, identifier).value].password == Hash(password)
      && us[UserByIdentifier(us, identifier).value].isVerified
    ensures r.Ok? ==>
      var u := us[UserByIdentifier(us, identifier).value];
      r.value == Session(u.id, u.username, u.email)
  {
    if identifier == "" || password == "" then Err(MissingCredentials)
    else match UserByIdentifier(us, identifier)
      case None => Err(InvalidCredentials)
      case Some(i) =>
        if us[i].password != Hash(password) then Err(InvalidCredentials)
        else if !us[i].isVerified then Err(NotVerified)
        else Ok(Session(us[i].id, us[i].username, us[i].email))
  }

  // ---------------------------------------------------------------------------
  // changePassword

  /** `changePassword`: lookup, then the old password, then the confirmation;
      success replaces only the password digest. The verified flag is not
      consulted. */
  method ChangePassword(db: Database, identifier: string, oldPassword: string, newPassword: string, confirmNewPassword: string)
    returns (r: Outcome<()>)
    requires db.Valid()
    modifies db
    ensures db.Valid()
    ensures db.families == old(db.families) && db.members == old(db.members)
    ensures db.transactions == old(db.transactions) && db.outbox == old(db.outbox)
    ensures r == Err(NotFound) <==>
      && identifier != "" && oldPassword != "" && newPassword != "" && confirmNewPassword != ""
      && UserByIdentifier(old(db.users), identifier).None?
    ensures r == Err(Unauthorized) <==>
      && identifier != "" && oldPassword != "" && newPassword != "" && confirmNewPassword != ""
      && UserByIdentifier(old(db.users), identifier).Some?
      && old(db.users)[UserByIdentifier(old(db.users), identifier).value].password != Hash(oldPassword)
    ensures r == Err(BadRequest) <==>
      || identifier == "" || oldPassword == "" || newPassword == "" || confirmNewPassword == ""
      || (&& UserByIdentifier(old(db.users), identifier).Some?
          && old(db.users)[UserByIdentifier(old(db.users), identifier).value].password == Hash(oldPassword)
          && newPassword != confirmNewPassword)
    ensures r.Ok? || r == Err(BadRequest) || r == Err(NotFound) || r == Err(Unauthorized)
    ensures r.Err? ==> db.users == old(db.users)
    ensures r.Ok? ==> UserByIdentifier(old(db.users), identifier).Some?
    ensures r.Ok? ==>
      var i := UserByIdentifier(old(db.users), identifier).value;
      db.users == old(db.users)[i := old(db.users)[i].(password := Hash(newPassword))]
  {
    if identifier == "" || oldPassword == "" || newPassword == "" || confirmNewPassword == "" {
      return Err(BadRequest);
    }
    var found := UserByIdentifier(db.users, identifier);
    if found.None? {
      return Err(NotFound);
    }
    var i := found.value;
    if db.users[i].password != Hash(oldPassword) {
      return Err(Unauthorized);
    }
    if newPassword != confirmNewPassword {
      return Err(BadRequest);
    }
    var updated := db.users[i].(password := Hash(newPassword));
    RewriteKeepsKeys(db.users, i, updated);
    db.users := db.users[i := updated];
    r := Ok(());
  }

  /** Rows that keep every email and username resolve an identifier to the same row. */
  lemma {:induction false} SameKeysSameLookup(us: seq<User>, us2: seq<User>, identifier: string)
    requires UsersValid(us) && |us2| == |us|
    requires forall j :: 0 <= j < |us| ==> us2[j].email == us[j].email && us2[j].username == us[j].username
    ensures UserByIdentifier(us2, identifier) == UserByIdentifier(us, identifier)
  {
    var a, b := UserByEmail(us, identifier), UserByEmail(us2, identifier);
    if a.Some? {
      assert us2[a.value].email == identifier;
    } else {
      assert b.None?;
      var c, d := UserByUsername(us, identifier), UserByUsername(us2, identifier);
      if c.Some? {
        assert us2[c.value].username == identifier;
      } else {
        assert d.None?;
      }
    }
  }

  /** After a password change the new password logs the user in (or reports
      only that the user is unverified), and an old password that differs
      from the new one within the 72 characters bcrypt reads no longer
      matches. An old password that agrees with the new one on those
      characters still matches. */
  lemma ChangedPasswordGovernsLogin(us: seq<User>, i: nat, identifier: string, oldPassword: string, newPassword: string)
    requires UsersValid(us) && UserByIdentifier(us, identifier) == Some(i)
    requires identifier != "" && newPassword != ""
    ensures var us2 := us[i := us[i].(password := Hash(newPassword))];
      && Login(us2, identifier, newPassword) != Err(InvalidCredentials)
      && (BcryptInput(oldPassword) != BcryptInput(newPassword) && oldPassword != "" ==> Login(us2, identifier, oldPassword) == Err(InvalidCredentials))
      && (BcryptInput(oldPassword) == BcryptInput(newPassword) && oldPassword != "" ==> Login(us2, identifier, oldPassword) == Login(us2, identifier, newPassword))
  {
    var us2 := us[i := us[i].(password := Hash(newPassword))];
    SameKeysSameLookup(us, us2, identifier);
    HashMatchesPrefix(oldPassword, newPassword);
  }
}
