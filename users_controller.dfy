/** `UserController`: the `/api/user` handlers for registration and login. */
module UsersApi {
  import opened Common
  import opened Responses
  import opened Users
  import opened LoginValidation

  /** The one body every failed login gets, whatever the cause. */
  function InvalidCredentials(): Response
  {
    Failure(401, "Invalid email or password")
  }

  class UserController {
    const users: UserService

    constructor (users: UserService)
      ensures this.users == users
    {
      this.users := users;
    }

    /** POST /api/user/register. `lookup` is the database as the email check
        finds it, `write` as the registration finds it. */
    method Register(dto: RegisterUserDto, salt: nat, lookup: Connection, write: Connection) returns (resp: Response)
      requires users.Valid()
      modifies users
      ensures users.Valid() && StatusAgrees(resp)
      ensures lookup.Failing? ==> resp == Failure(500, lookup.message) && users.rows == old(users.rows)
      ensures lookup.Healthy? && HasEmail(old(users.rows), dto.email, users.collation) ==>
                && resp == Failure(400, EmailInUse)
                && users.rows == old(users.rows) && users.nextId == old(users.nextId)
      ensures lookup.Healthy? && !HasEmail(old(users.rows), dto.email, users.collation) && write.Failing? ==>
                resp == Failure(500, write.message) && users.rows == old(users.rows)
      ensures lookup.Healthy? && !HasEmail(old(users.rows), dto.email, users.collation) && write.Healthy? ==>
                var id := old(users.nextId);
                && resp == Success(201, "User registered successfully", NoData)
                && id !in old(users.rows)
                && users.rows == old(users.rows)[id := User(id, dto.name, dto.email, users.crypto.hash(dto.password, salt))]
    {
      var checkAlreadyExists := users.FindOneByEmail(dto.email, lookup);
      if checkAlreadyExists.Thrown? {
        return Failure(500, checkAlreadyExists.message);
      }
      if checkAlreadyExists.value.Some? {
        return Failure(400, EmailInUse);
      }
      var isRegistered := users.Register(dto, salt, write);
      if isRegistered.Thrown? {
        return Failure(500, isRegistered.message);
      }
      resp := Success(201, "User registered successfully", NoData);
    }

    /** POST /api/user/login: a token for the account once the credentials pass,
        otherwise the same 401 body whether the email is unknown, the password is
        wrong or something threw. `check` is the database as the credential check
        finds it, `lookup` as the account lookup after it finds it. */
    method Login(dto: LoginUserDto, issuedAt: int, check: Connection, lookup: Connection) returns (resp: Response)
      requires users.Valid()
      ensures StatusAgrees(resp)
      ensures resp.code == 200 || resp == InvalidCredentials()
      ensures resp.code == 200 <==>
                && check.Healthy? && lookup.Healthy?
                && exists k :: k in users.rows && users.collation(users.rows[k].email, dto.email)
                                && users.crypto.compare(dto.password, users.rows[k].password)
      ensures resp.code == 200 ==> resp == Success(200, "Login successful", resp.data)
      ensures resp.code == 200 ==>
                exists k :: k in users.rows && users.collation(users.rows[k].email, dto.email)
                            && resp.data == TokenData(users.GenerateAccessToken(k, issuedAt))
    {
      var checkValidDetails := users.Login(dto, check);
      if checkValidDetails.Thrown? || !checkValidDetails.value {
        return InvalidCredentials();
      }
      var user := users.FindOneByEmail(dto.email, lookup);
      if user.Thrown? || user.value.None? {
        return InvalidCredentials();
      }
      var token := users.GenerateAccessToken(user.value.value.id, issuedAt);
      resp := Success(200, "Login successful", TokenData(token));
    }
  }
}
