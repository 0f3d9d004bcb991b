/** The user table and `UserService`: registration, credential checking, token
    issuance and resolving the caller of a request from its bearer token. */
module Users {
  import opened Common
  import opened AuthHeader
  import opened LoginValidation

  /** A stored account; `password` holds the bcrypt hash. */
  datatype User = User(id: int, name: string, email: string, password: string)

  datatype RegisterUserDto = RegisterUserDto(name: string, email: string, password: string)

  /** The part of an HTTP request the service reads: the `Authorization` header. */
  datatype Request = Request(authorization: Option<string>)

  /** The `id` claim of a decoded token payload, or its absence (`undefined`). */
  datatype Claim = IdClaim(id: int) | NoIdClaim

  /** bcrypt and the JWT library, as functions supplied from outside.
      `hash(p, salt)` is `bcrypt.hash(p, 10)` with the salt it draws; `sign(id, t)`
      is `signAsync({id}, ...)` at time `t`; `decode(token)` is the `id` claim of
      `jwtDecode(token)`, or the message of the error it throws. */
  datatype Crypto = Crypto(
    hash: (string, nat) -> string,
    compare: (string, string) -> bool,
    sign: (int, int) -> string,
    decode: string -> Outcome<Claim>)

  /** What the service relies on: a password matches its own hash, a signed token
      decodes to the id it was signed for, and a signed token holds no space. */
  ghost predicate Sound(c: Crypto)
  {
    && (forall password, salt :: c.compare(password, c.hash(password, salt)))
    && (forall id, issuedAt :: c.decode(c.sign(id, issuedAt)) == Value(IdClaim(id)))
    && (forall id, issuedAt :: ' ' !in c.sign(id, issuedAt))
  }

  const EmailInUse := "Email is already in use"

  /** What `jwtDecode` throws when given `undefined`. */
  const UndefinedTokenMessage := "Invalid token specified: must be a string"

  /** How the database compares two emails: the `email` column's collation,
      which under the server's defaults ignores letter case. Any collation is
      an equivalence. */
  ghost predicate Equivalence(same: (string, string) -> bool)
  {
    && (forall a :: same(a, a))
    && (forall a, b :: same(a, b) ==> same(b, a))
    && (forall a, b, c :: same(a, b) && same(b, c) ==> same(a, c))
  }

  /** Some account's email equals `email` under the collation. */
  ghost predicate HasEmail(rows: map<int, User>, email: string, same: (string, string) -> bool)
  {
    exists k :: k in rows && same(rows[k].email, email)
  }

  /** No two accounts have emails equal under the collation. */
  ghost predicate EmailsUnique(rows: map<int, User>, same: (string, string) -> bool)
  {
    forall j, k :: j in rows && k in rows && same(rows[j].email, rows[k].email) ==> j == k
  }

  /** A missing or empty header is falsy: the request carries no credentials. */
  predicate NoAuthorization(req: Request)
  {
    req.authorization.None? || req.authorization.value == ""
  }

  /** The request's header has a second word that decodes to `claim`. */
  ghost predicate Carries(req: Request, decode: string -> Outcome<Claim>, claim: Claim)
  {
    && !NoAuthorization(req)
    && SecondWord(req.authorization.value).Some?
    && decode(SecondWord(req.authorization.value).value) == Value(claim)
  }

  /** The first row in ascending id order among the ids in [lo, hi): what a
      lookup with no condition left returns. */
  function FirstFrom(rows: map<int, User>, lo: int, hi: int): (r: Option<User>)
    requires forall k :: k in rows ==> rows[k].id == k
    ensures r.Some? ==> lo <= r.value.id < hi && r.value.id in rows && rows[r.value.id] == r.value
    ensures r.None? ==> forall k :: lo <= k < hi ==> k !in rows
    decreases hi - lo
  {
    if hi <= lo then None
    else if lo in rows then Some(rows[lo])
    else FirstFrom(rows, lo + 1, hi)
  }

  class UserService {
    var rows: map<int, User>
    var nextId: int
    const crypto: Crypto
    /** The `email` column's collation. */
    const collation: (string, string) -> bool

    /** Rows are keyed by their ids, which lie below the counter, and no two
        accounts share an email under the collation. */
    ghost predicate Valid()
      reads this
    {
      && 1 <= nextId
      && (forall k :: k in rows ==> rows[k].id == k && 1 <= k < nextId)
      && Equivalence(collation)
      && EmailsUnique(rows, collation)
    }

    constructor (crypto: Crypto, collation: (string, string) -> bool)
      requires Equivalence(collation)
      ensures Valid() && rows == map[] && this.crypto == crypto && this.collation == collation
    {
      rows := map[];
      nextId := 1;
      this.crypto := crypto;
      this.collation := collation;
    }

    /** The account whose email equals `email` under the collation, if any. */
    function FindOneByEmail(email: string, conn: Connection): (r: Outcome<Option<User>>)
      reads this
      requires Valid()
      ensures conn.Failing? ==> r == Thrown(conn.message)
      ensures conn.Healthy? ==> r.Value? && (r.value.Some? <==> HasEmail(rows, email, collation))
      ensures conn.Healthy? && r.value.Some? ==>
                var u := r.value.value; collation(u.email, email) && u.id in rows && rows[u.id] == u
    {
      if conn.Failing? then Thrown(conn.message)
      else if exists k :: k in rows && collation(rows[k].email, email) then
        var k :| k in rows && collation(rows[k].email, email);
        Value(Some(rows[k]))
      else Value(None)
    }

    /** Stores a new account with the hashed password, unless the email is taken. */
    method Register(dto: RegisterUserDto, salt: nat, conn: Connection) returns (r: Outcome<User>)
      requires Valid()
      modifies this
      ensures Valid()
      ensures conn.Failing? ==> r == Thrown(conn.message) && rows == old(rows) && nextId == old(nextId)
      ensures conn.Healthy? && HasEmail(old(rows), dto.email, collation) ==>
                r == Thrown(EmailInUse) && rows == old(rows) && nextId == old(nextId)
      ensures conn.Healthy? && !HasEmail(old(rows), dto.email, collation) ==>
                && r == Value(User(old(nextId), dto.name, dto.email, crypto.hash(dto.password, salt)))
                && old(nextId) !in old(rows)
                && rows == old(rows)[old(nextId) := r.value]
                && nextId == old(nextId) + 1
    {
      var existing := FindOneByEmail(dto.email, conn);
      if existing.Thrown? {
        return Thrown(existing.message);
      }
      if existing.value.Some? {
        return Thrown(EmailInUse);
      }
      var hashedPassword := crypto.hash(dto.password, salt);
      var user := User(nextId, dto.name, dto.email, hashedPassword);
      rows := rows[nextId := user];
      nextId := nextId + 1;
      r := Value(user);
    }

    /** `bcrypt.compare`: a password matches any hash made from it. */
    function ComparePasswords(password: string, storedPasswordHash: string): (matches: bool)
      ensures Sound(crypto) && (exists salt :: storedPasswordHash == crypto.hash(password, salt)) ==> matches
    {
      crypto.compare(password, storedPasswordHash)
    }

    /** Whether some account has the email, under the collation, and the password
        matches its hash. */
    function Login(dto: LoginUserDto, conn: Connection): (r: Outcome<bool>)
      reads this
      requires Valid()
      ensures conn.Failing? ==> r == Thrown(conn.message)
      ensures conn.Healthy? ==> r.Value? && (r.value <==>
                exists k :: k in rows && collation(rows[k].email, dto.email) && crypto.compare(dto.password, rows[k].password))
      ensures conn.Healthy? && !HasEmail(rows, dto.email, collation) ==> r == Value(false)
    {
      match FindOneByEmail(dto.email, conn)
      case Thrown(m) => Thrown(m)
      case Value(None) => Value(false)
      case Value(Some(user)) => Value(ComparePasswords(dto.password, user.password))
    }

    /** A token whose payload carries the `id` claim; it decodes back to the id
        and holds no space. */
    function GenerateAccessToken(id: int, issuedAt: int): (token: string)
      ensures Sound(crypto) ==> crypto.decode(token) == Value(IdClaim(id)) && ' ' !in token
    {
      crypto.sign(id, issuedAt)
    }

    /** The caller of a request: the account whose id the token in the header's
        second word decodes to. The first word and the token's signature and
        expiry are not checked. A payload without an `id` claim leaves the lookup
        with no condition, so it answers the first stored account. */
    function GetUserFromAccessToken(req: Request, conn: Connection): (r: Outcome<Option<User>>)
      reads this
      requires Valid()
      ensures NoAuthorization(req) ==> r == Value(None)
      ensures !NoAuthorization(req) && ' ' !in req.authorization.value ==> r == Thrown(UndefinedTokenMessage)
      ensures !NoAuthorization(req) && SecondWord(req.authorization.value).Some? ==>
                var decoded := crypto.decode(SecondWord(req.authorization.value).value);
                && (decoded.Thrown? ==> r == Thrown(decoded.message))
                && (decoded.Value? && conn.Failing? ==> r == Thrown(conn.message))
      ensures r.Value? && r.value.Some? ==>
                var u := r.value.value;
                && conn.Healthy? && u.id in rows && rows[u.id] == u
                && (Carries(req, crypto.decode, IdClaim(u.id)) || Carries(req, crypto.decode, NoIdClaim))
      ensures forall id :: conn.Healthy? && Carries(req, crypto.decode, IdClaim(id)) ==>
                r == Value(if id in rows then Some(rows[id]) else None)
      ensures conn.Healthy? && Carries(req, crypto.decode, NoIdClaim) ==>
                r.Value? && (r.value.Some? <==> rows != map[])
    {
      if NoAuthorization(req) then Value(None)
      else
        SecondWordNeedsSpace(req.authorization.value);
        match SecondWord(req.authorization.value)
        case None => Thrown(UndefinedTokenMessage)
        case Some(token) =>
          match crypto.decode(token)
          case Thrown(m) => Thrown(m)
          case Value(IdClaim(id)) =>
            if conn.Failing? then Thrown(conn.message)
            else if id in rows then Value(Some(rows[id]))
            else Value(None)
          case Value(NoIdClaim) =>
            if conn.Failing? then Thrown(conn.message)
            else Value(FirstFrom(rows, 1, nextId))
    }
  }

  /** A token the service issued for `id`, sent after any first word, resolves to
      the account with that id. */
  lemma IssuedTokenResolves(users: UserService, scheme: string, id: int, issuedAt: int)
    requires users.Valid() && Sound(users.crypto) && ' ' !in scheme
    ensures var req := Request(Some(scheme + " " + users.GenerateAccessToken(id, issuedAt)));
            users.GetUserFromAccessToken(req, Healthy) == Value(if id in users.rows then Some(users.rows[id]) else None)
  {
    SecondWordAfterAnyScheme(scheme, users.GenerateAccessToken(id, issuedAt));
  }

  /** An account stored with the hash of its password logs in with that password. */
  lemma StoredPasswordLogsIn(users: UserService, id: int, password: string, salt: nat)
    requires users.Valid() && Sound(users.crypto)
    requires id in users.rows && users.rows[id].password == users.crypto.hash(password, salt)
    ensures users.Login(LoginUserDto(users.rows[id].email, password), Healthy) == Value(true)
  {
    assert users.crypto.compare(password, users.rows[id].password);
  }

  /** An email equal to a taken one under the collation is taken too: a
      registration with it is refused and a login with it finds that account. */
  lemma CollatedEmailIsTaken(users: UserService, id: int, variant: string)
    requires users.Valid() && id in users.rows && users.collation(users.rows[id].email, variant)
    ensures HasEmail(users.rows, variant, users.collation)
    ensures users.FindOneByEmail(variant, Healthy) == Value(Some(users.rows[id]))
  {
  }

  /** A password is accepted against the hash it was stored under. */
  lemma PasswordMatchesItsHash(users: UserService, password: string, salt: nat)
    requires Sound(users.crypto)
    ensures users.ComparePasswords(password, users.crypto.hash(password, salt))
  {
  }
}
