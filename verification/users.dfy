/**
 * Registration (routes/api/users.js): validate the request, refuse an email
 * that is already registered, store the new user with a hashed password,
 * and answer with a signed token for it.
 */
module Users {
  import opened Sequences
  import opened Db
  import opened Auth

  /** The request body; a missing field reads as "" (the validators see it that way). */
  datatype RegisterRequest = RegisterRequest(name: string, email: string, password: string)

  /** The options passed to the avatar URL builder: size, rating, default image. */
  datatype AvatarOptions = AvatarOptions(s: string, r: string, d: string)

  datatype SignOptions = SignOptions(expiresIn: nat)

  const AvatarDefaults := AvatarOptions("200", "g", "mm")
  const SaltRounds := 10
  const TokenLifetime := 3600

  const NameMsg := "Name is requried"
  const EmailMsg := "Please include valid email"
  const PasswordMsg := "Please Enter password with 6 or more characters"
  const UserExistsMsg := "User already exists"
  /** The validation messages, in the order the checks are declared. */
  const RegisterMsgs := [NameMsg, EmailMsg, PasswordMsg]

  /**
   * The foreign libraries registration relies on, as functions: the email
   * validator, the gravatar URL builder, bcrypt's salt generator (whose
   * randomness is fixed by the caller) and hash, and the JWT signer.
   */
  datatype Libraries = Libraries(
    isEmail: string -> bool,
    gravatarUrl: (string, AvatarOptions) -> string,
    genSalt: nat -> string,
    hash: (string, string) -> string,
    sign: (TokenPayload, string, SignOptions) -> string)

  /** The validation messages, in the order the checks are declared. */
  function RegisterErrors(req: RegisterRequest, isEmail: string -> bool): (errs: seq<string>)
    ensures errs == [] <==> req.name != "" && isEmail(req.email) && |req.password| >= 6
    ensures |req.password| < 6 ==> errs[|errs| - 1] == PasswordMsg
    ensures req.name == "" ==> errs[0] == NameMsg
    ensures |errs| <= 3
    ensures NameMsg in errs <==> req.name == ""
    ensures EmailMsg in errs <==> !isEmail(req.email)
    ensures PasswordMsg in errs <==> |req.password| < 6
    ensures |errs| == (if req.name == "" then 1 else 0) + (if !isEmail(req.email) then 1 else 0)
                      + (if |req.password| < 6 then 1 else 0)
    ensures InOrder(errs, RegisterMsgs)
  {
    var failed := [req.name == "", !isEmail(req.email), |req.password| < 6];
    SelectedFacts(RegisterMsgs, failed);
    assert CountTrue(failed[2..]) == (if failed[2] then 1 else 0) by {
      assert failed[2..][1..] == [];
    }
    assert CountTrue(failed[1..]) == (if failed[1] then 1 else 0) + (if failed[2] then 1 else 0) by {
      assert failed[1..][1..] == failed[2..];
    }
    assert RegisterMsgs[0] == NameMsg && RegisterMsgs[1] == EmailMsg && RegisterMsgs[2] == PasswordMsg;
    if failed[2] then
      SelectedLast(RegisterMsgs, failed);
      Selected(RegisterMsgs, failed)
    else
      Selected(RegisterMsgs, failed)
  }

  /** `verify` decodes, under the same secret, whatever `sign` signs with the one-hour lifetime. */
  ghost predicate Inverts(verify: (string, string) -> Option<TokenPayload>, sign: (TokenPayload, string, SignOptions) -> string)
  {
    forall p: TokenPayload, s: string :: verify(sign(p, s, SignOptions(TokenLifetime)), s) == Some(p)
  }

  /**
   * The token for `id`: payload `{user: {id}}`, signed with `secret`, valid
   * for an hour. Any verifier that undoes the signer reads `id` back.
   */
  function IssueToken(id: UserId, secret: string, sign: (TokenPayload, string, SignOptions) -> string): (token: string)
    ensures forall verify | Inverts(verify, sign) :: verify(token, secret) == Some(TokenPayload(ReqUser(id)))
  {
    sign(TokenPayload(ReqUser(id)), secret, SignOptions(TokenLifetime))
  }

  /**
   * POST api/users. `newId` is the id the database assigns to the new
   * document.
   */
  method Register(db: Store, req: RegisterRequest, libs: Libraries, secret: string, newId: UserId)
    returns (res: Response)
    requires db.Valid()
    requires newId !in Keys(db.users, UserIdOf)
    modifies db`users
    ensures db.Valid()
    ensures RegisterErrors(req, libs.isEmail) != [] ==>
      res == Response(400, Errors(RegisterErrors(req, libs.isEmail))) && db.users == old(db.users)
    ensures RegisterErrors(req, libs.isEmail) == [] && req.email in Keys(old(db.users), UserEmail) ==>
      res == Response(400, Errors([UserExistsMsg])) && db.users == old(db.users)
    ensures RegisterErrors(req, libs.isEmail) == [] && req.email !in Keys(old(db.users), UserEmail) ==>
      && db.users == old(db.users) + [User(newId, req.name, req.email,
                                           libs.gravatarUrl(req.email, AvatarDefaults),
                                           libs.hash(req.password, libs.genSalt(SaltRounds)))]
      && res == Response(200, Token(IssueToken(newId, secret, libs.sign)))
  {
    var errs := RegisterErrors(req, libs.isEmail);
    if errs != [] {
      return Response(400, Errors(errs));
    }
    // User.findOne({email})
    var found := IndexOf(Keys(db.users, UserEmail), req.email);
    if found != -1 {
      return Response(400, Errors([UserExistsMsg]));
    }
    var avatar := libs.gravatarUrl(req.email, AvatarDefaults);
    var user := User(newId, req.name, req.email, avatar, req.password);
    var salt := libs.genSalt(SaltRounds);
    user := user.(password := libs.hash(req.password, salt));
    AddKeepsUnique(db.users, user, UserIdOf);
    AddKeepsUnique(db.users, user, UserEmail);
    db.users := db.users + [user];
    res := Response(200, Token(IssueToken(user.id, secret, libs.sign)));
  }

  /**
   * A token issued at registration passes the gate as the new user,
   * provided the verifier decodes, under the same secret, whatever the
   * signer produced with the one-hour lifetime (that is, within the hour),
   * and the token is not empty.
   */
  lemma IssuedTokenPassesGate(id: UserId, secret: string, libs: Libraries,
                              verify: (string, string) -> Option<TokenPayload>)
    requires Inverts(verify, libs.sign)
    requires IssueToken(id, secret, libs.sign) != ""
    ensures AuthGate(Some(IssueToken(id, secret, libs.sign)), secret, verify) == Next(ReqUser(id))
  {
  }

  /**
   * Registering the same request twice: the second attempt is refused
   * with "User already exists" and the users collection grows by at most one.
   */
  method RegisterTwice(db: Store, req: RegisterRequest, libs: Libraries, secret: string, id1: UserId, id2: UserId)
    returns (first: Response, second: Response)
    requires db.Valid()
    requires id1 !in Keys(db.users, UserIdOf) && id2 !in Keys(db.users, UserIdOf) && id1 != id2
    requires RegisterErrors(req, libs.isEmail) == []
    modifies db`users
    ensures second == Response(400, Errors([UserExistsMsg]))
    ensures |db.users| <= |old(db.users)| + 1
  {
    first := Register(db, req, libs, secret, id1);
    assert Keys(db.users, UserIdOf) <= Keys(old(db.users), UserIdOf) + [id1];
    if first.status == 200 {
      assert Keys(db.users, UserEmail)[|db.users| - 1] == req.email;
    }
    second := Register(db, req, libs, secret, id2);
  }
}
