/** `UserController`: listing users and registering one. */
module UserController {
  import opened Wrappers
  import opened UserModel
  import opened Security
  import opened Http
  import opened Repository
  import opened UserService

  /** `GET /users`. The `Authorization` header is accepted but never looked at: the
      contract does not mention it. */
  method GetUsers(db: Store, header: Option<string>) returns (r: Response)
    ensures r.code == NotFound <==> db.users == map[]
    ensures r.code == NotFound ==> r == Response(NotFound, "No users Found", Users(map[]))
    ensures r.code != NotFound ==> r == Response(Ok, "All users are available here.", Users(db.users))
  {
    var users := GetAllUsers(db);
    if users == map[] {
      return Response(NotFound, "No users Found", Users(map[]));
    }
    r := Response(Ok, "All users are available here.", Users(users));
  }

  /** The details a failed registration reports: the exception's message. */
  function RegisterErrorDetails(e: RegisterError): Payload
  {
    match e
    case EmailInUse => ExceptionMessage("Email is already in use.")
    case Rejected => OpaqueException
  }

  /** `POST /user`: validation, then registration, then a token for the user's e-mail. */
  method Register(db: Store, jwt: JwtService, encode: string -> string, user: User) returns (r: Response)
    requires db.Valid()
    modifies db
    ensures db.Valid()
    ensures db.products == old(db.products) && db.nextProductId == old(db.nextProductId)
    ensures r.code in {Ok, BadRequest}
    ensures !UserValid(user) ==>
      r == Response(BadRequest, "Validation failed", InvalidFields(UserFieldErrors(user)))
    ensures UserValid(user) && EmailTaken(old(db.users), user.email) ==>
      r == Response(BadRequest, "Error occurred while adding user", ExceptionMessage("Email is already in use."))
    ensures r.code == Ok <==> UserValid(user) && !EmailTaken(old(db.users), user.email) && UserValid(Hashed(encode, user))
    ensures UserValid(user) && !EmailTaken(old(db.users), user.email) && !UserValid(Hashed(encode, user)) ==>
      r == Response(BadRequest, "Error occurred while adding user", OpaqueException)
    ensures r.code != Ok ==> !r.payload.Token?
    ensures r.code != Ok ==> db.users == old(db.users) && db.nextUserId == old(db.nextUserId)
    ensures r.code == Ok ==>
      && r.payload == Token(jwt.generateToken(user.email.value))
      && var g := UserService.Register(old(db.users), old(db.nextUserId), encode, user);
      && g.outcome.Success? && db.users == g.users && db.nextUserId == g.nextUserId
  {
    if !UserValid(user) {
      return Response(BadRequest, "Validation failed", InvalidFields(UserFieldErrors(user)));
    }
    var outcome := RegisterUser(db, encode, user);
    if outcome.Failure? {
      return Response(BadRequest, "Error occurred while adding user", RegisterErrorDetails(outcome.error));
    }
    ValidUserIsPersistable(user);
    var token := jwt.generateToken(outcome.value.email.value);
    r := Response(Ok, "User added successfully", Token(token));
  }
}
