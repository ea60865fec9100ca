/**
  Accounts (routes/users.js): signup validation and the email-uniqueness
  check, signup itself, the login credential check and `/getuser`.
  bcrypt (hash and compare), jwt signing and Joi's email predicate are
  parameters.
 */
module Accounts {
  import opened Common
  import opened Text
  import opened Auth

  /** Signup creates every cart as `Array(300).fill(0)`, indexed by item number. */
  const CartSlots := 300

  datatype User = User(id: UserId, name: string, email: string, password: string, cart: seq<int>, date: int)

  function Zeros(n: nat): (r: seq<int>)
    ensures |r| == n
    ensures forall i :: 0 <= i < n ==> r[i] == 0
  {
    seq(n, i => 0)
  }

  predicate UniqueIds(users: seq<User>)
  {
    forall i, j :: 0 <= i < j < |users| ==> users[i].id != users[j].id
  }

  /** The `unique: true` index on `email` (models/User.js). */
  predicate UniqueEmails(users: seq<User>)
  {
    forall i, j :: 0 <= i < j < |users| ==> users[i].email != users[j].email
  }

  /** `Users.findOne({_id: id})`. */
  function FindUser(users: seq<User>, id: UserId): (r: Option<nat>)
    ensures r.Some? ==> r.value < |users| && users[r.value].id == id
    ensures r.None? ==> forall j :: 0 <= j < |users| ==> users[j].id != id
  {
    FirstWithKey(users, (u: User) => u.id, id, 0)
  }

  /** `Users.findOne({email})`. */
  function FindByEmail(users: seq<User>, email: string): (r: Option<nat>)
    ensures r.Some? ==> r.value < |users| && users[r.value].email == email
    ensures r.None? ==> forall j :: 0 <= j < |users| ==> users[j].email != email
  {
    FirstWithKey(users, (u: User) => u.email, email, 0)
  }

  // ---------------------------------------------------------------------
  // Signup validation (the Joi schema)

  /** The signup body; `None` is a missing key. */
  datatype SignupBody = SignupBody(username: Option<string>, email: Option<string>, password: Option<string>)

  datatype Field = Username | Email | Password

  /**
    `Joi.string().alphanum().min(3).max(30).required()` (Joi strings are
    non-empty). Alphanumeric strings are ASCII, so their UTF-16 length is
    their length.
   */
  predicate UsernameOk(u: Option<string>)
  {
    u.Some? && IsAlphanumeric(u.value) && 3 <= |u.value| <= 30
  }

  /** `Joi.string().email().required()`; `isEmail` stands for Joi's address check. */
  predicate EmailOk(e: Option<string>, isEmail: string -> bool)
  {
    e.Some? && e.value != "" && isEmail(e.value)
  }

  /** `Joi.string().min(6).required()`; Joi measures `value.length`, in UTF-16 code units. */
  predicate PasswordOk(p: Option<string>)
  {
    p.Some? && Utf16Length(p.value) >= 6
  }

  /** Three characters above U+FFFF are six code units, so they pass the length rule. */
  lemma AstralPasswordAccepted()
    ensures |"\U{1F600}\U{1F600}\U{1F600}"| == 3
    ensures PasswordOk(Some("\U{1F600}\U{1F600}\U{1F600}"))
  {
    var s := "\U{1F600}\U{1F600}\U{1F600}";
    assert s[..2] == "\U{1F600}\U{1F600}";
    assert s[..2][..1] == "\U{1F600}";
    assert "\U{1F600}"[..0] == [];
  }

  /** Joi stops at the first failing key, in schema order. */
  function Validate(body: SignupBody, isEmail: string -> bool): (r: Option<Field>)
    ensures r.None? <==> UsernameOk(body.username) && EmailOk(body.email, isEmail) && PasswordOk(body.password)
    ensures r == Some(Username) <==> !UsernameOk(body.username)
    ensures r == Some(Email) <==> UsernameOk(body.username) && !EmailOk(body.email, isEmail)
    ensures r == Some(Password) <==> UsernameOk(body.username) && EmailOk(body.email, isEmail) && !PasswordOk(body.password)
  {
    if !UsernameOk(body.username) then Some(Username)
    else if !EmailOk(body.email, isEmail) then Some(Email)
    else if !PasswordOk(body.password) then Some(Password)
    else None
  }

  /** The record signup saves: the hashed password and an all-zero 300-slot cart. */
  function NewUser(body: SignupBody, hash: string -> string, id: UserId, now: int): (u: User)
    requires body.username.Some? && body.email.Some? && body.password.Some?
    ensures u.id == id && u.name == body.username.value && u.email == body.email.value
    ensures u.password == hash(body.password.value)
    ensures |u.cart| == CartSlots && forall i :: 0 <= i < CartSlots ==> u.cart[i] == 0
  {
    User(id, body.username.value, body.email.value, hash(body.password.value), Zeros(CartSlots), now)
  }

  /** The payload `jwt.sign({user: {id}})` encodes. */
  function TokenPayload(id: UserId): Payload
  {
    Payload(Some(Principal(id)))
  }

  datatype SignupResult = Invalid(field: Field) | EmailTaken | SignedUp(token: string)

  /** Appending a user whose email is new keeps emails unique. */
  lemma AppendKeepsUniqueEmails(users: seq<User>, u: User)
    requires UniqueEmails(users)
    requires FindByEmail(users, u.email).None?
    ensures UniqueEmails(users + [u])
  {
  }

  // ---------------------------------------------------------------------
  // Login

  datatype LoginResult = InvalidCredentials | LoggedIn(token: string)

  /**
    `/login`: the user with that email, if its stored hash matches the
    password; `compare` stands for `bcrypt.compare`.
   */
  function Login(users: seq<User>, email: string, password: string,
                 compare: (string, string) -> bool, sign: Signer): (r: LoginResult)
    ensures r.LoggedIn? <==> FindByEmail(users, email).Some? && compare(password, users[FindByEmail(users, email).value].password)
    ensures r.LoggedIn? ==> r.token == sign(TokenPayload(users[FindByEmail(users, email).value].id))
  {
    match FindByEmail(users, email)
    case None => InvalidCredentials
    case Some(k) => if compare(password, users[k].password) then LoggedIn(sign(TokenPayload(users[k].id))) else InvalidCredentials
  }

  /** bcrypt's contract: a password matches its own hash. */
  ghost predicate HashMatches(hash: string -> string, compare: (string, string) -> bool)
  {
    forall p :: compare(p, hash(p))
  }

  /**
    After a successful signup the same email and password log in, and the
    token names the new user.
   */
  lemma SignupThenLogin(users: seq<User>, body: SignupBody, hash: string -> string,
                        compare: (string, string) -> bool, sign: Signer, id: UserId, now: int)
    requires HashMatches(hash, compare)
    requires body.username.Some? && body.email.Some? && body.password.Some?
    requires FindByEmail(users, body.email.value).None?
    ensures Login(users + [NewUser(body, hash, id, now)], body.email.value, body.password.value, compare, sign)
            == LoggedIn(sign(TokenPayload(id)))
  {
    var after := users + [NewUser(body, hash, id, now)];
    var k := FindByEmail(after, body.email.value);
    assert after[|users|].email == body.email.value;
    assert k.Some? && k.value == |users|;
  }

  /**
    A login token, presented as "Bearer <token>", passes the gate with the
    logged-in user's id.
   */
  lemma LoginTokenPassesGate(users: seq<User>, email: string, password: string,
                             compare: (string, string) -> bool, sign: Signer, verify: Verifier)
    requires SignVerifies(sign, verify)
    requires Login(users, email, password, compare, sign).LoggedIn?
    ensures var token := Login(users, email, password, compare, sign).token;
      Authenticate(Some(BearerPrefix + token), verify) == Pass(Some(Principal(users[FindByEmail(users, email).value].id)))
  {
    var token := Login(users, email, password, compare, sign).token;
    BearerTokenExtracted(token);
  }

  /** Wrong credentials never issue a token. */
  lemma WrongPasswordNoToken(users: seq<User>, email: string, password: string,
                             compare: (string, string) -> bool, sign: Signer)
    requires forall k :: 0 <= k < |users| && users[k].email == email ==> !compare(password, users[k].password)
    ensures Login(users, email, password, compare, sign) == InvalidCredentials
  {
  }

  // ---------------------------------------------------------------------
  // The user collection

  class UserStore {
    var users: seq<User>

    ghost predicate Valid()
      reads this
    {
      && UniqueIds(users)
      && UniqueEmails(users)
      && forall k :: 0 <= k < |users| ==> |users[k].cart| == CartSlots
    }

    constructor ()
      ensures Valid() && users == []
    {
      users := [];
    }

    /**
      `/signup`. Validation comes before any store access; a known email
      is refused; otherwise one user is appended. `freshId` is the new
      document's ObjectId, `now` its creation date, `hash` bcrypt with a
      fresh salt.
     */
    method Signup(body: SignupBody, isEmail: string -> bool, hash: string -> string,
                  sign: Signer, freshId: UserId, now: int) returns (r: SignupResult)
      requires Valid()
      requires FindUser(users, freshId).None?
      modifies this
      ensures Valid()
      ensures Validate(body, isEmail).Some? ==> r == Invalid(Validate(body, isEmail).value) && users == old(users)
      ensures Validate(body, isEmail).None? && FindByEmail(old(users), body.email.value).Some? ==>
        r == EmailTaken && users == old(users)
      ensures Validate(body, isEmail).None? && FindByEmail(old(users), body.email.value).None? ==>
        && users == old(users) + [NewUser(body, hash, freshId, now)]
        && r == SignedUp(sign(TokenPayload(freshId)))
    {
      var invalid := Validate(body, isEmail);
      if invalid.Some? {
        return Invalid(invalid.value);
      }
      if FindByEmail(users, body.email.value).Some? {
        return EmailTaken;
      }
      var user := NewUser(body, hash, freshId, now);
      AppendKeepsUniqueEmails(users, user);
      users := users + [user];
      r := SignedUp(sign(TokenPayload(freshId)));
    }

    /** `/getuser`: the user with the request's id, or `None` (`{user: null}`); nothing changes. */
    method GetUser(id: UserId) returns (u: Option<User>)
      requires Valid()
      ensures u.Some? <==> exists k :: 0 <= k < |users| && users[k].id == id
      ensures u.Some? ==> u.value in users && u.value.id == id
    {
      var k := FindUser(users, id);
      if k.None? {
        return None;
      }
      u := Some(users[k.value]);
    }
  }
}
