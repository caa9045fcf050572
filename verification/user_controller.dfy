/** The user handlers of `src/controllers/user.controller.ts` as decision
    ladders over the request's fields and the repositories' answers.
    `tokenEmail` and `tokenUid` are what an authentication middleware put
    on the request, if anything. */
module UserController {
  import opened Common
  import opened Http
  import opened ObjectId
  import opened UserModel

  /** `isUserAuthorized(tokenEmail, tokenUid, authId)`: refused only when
      all three are present and the auth id differs from the token's uid. */
  function IsUserAuthorized(tokenEmail: Option<string>, tokenUid: Option<string>, authId: Option<string>): (ok: bool)
    ensures !ok <==> Truthy(tokenEmail) && Truthy(tokenUid) && Truthy(authId) && authId.value != tokenUid.value
  {
    !(Truthy(tokenEmail) && Truthy(tokenUid) && Truthy(authId) && authId.value != tokenUid.value)
  }

  /** Without an auth id to compare, every caller is authorised; with one,
      it is enough that it equals the token's uid. */
  lemma AuthorizedWithoutAuthId(tokenEmail: Option<string>, tokenUid: Option<string>, authId: Option<string>)
    ensures IsUserAuthorized(tokenEmail, tokenUid, None)
    ensures authId.Some? && tokenUid == authId ==> IsUserAuthorized(tokenEmail, tokenUid, authId)
    ensures !Truthy(tokenEmail) || !Truthy(tokenUid) ==> IsUserAuthorized(tokenEmail, tokenUid, authId)
  {
  }

  /** Whether the email lookup of `doesUserExist` runs: an email is given
      and the id lookup did not run or found nothing. */
  predicate EmailLookupRuns(idKey: Option<string>, email: Option<string>, userId: Option<string>,
                            byId: Option<string> -> Lookup<User>)
  {
    Truthy(email) && (!Truthy(userId) || byId(idKey).NotFound?)
  }

  /** Whether some lookup of `doesUserExist` that runs throws. */
  predicate ExistLookupThrows(idKey: Option<string>, email: Option<string>, userId: Option<string>,
                              byId: Option<string> -> Lookup<User>, byEmail: string -> Lookup<User>)
  {
    (Truthy(userId) && byId(idKey).Threw?)
    || (EmailLookupRuns(idKey, email, userId, byId) && byEmail(email.value).Threw?)
  }

  /** The `doesUserExist` ladder, with the key its id lookup is given as a
      parameter: the id lookup runs when `userId` is truthy, the email lookup
      only when that found nothing and `email` is truthy. */
  function DoesUserExistWith(idKey: Option<string>, email: Option<string>, userId: Option<string>,
                             byId: Option<string> -> Lookup<User>, byEmail: string -> Lookup<User>): (r: Response<bool>)
    ensures r.Respond?
    ensures !Truthy(email) && !Truthy(userId) <==> r == Fail(BadRequest, UseridOrEmailRequired, NoDetails)
    ensures r.status == Ok ==>
              r.body == Payload((Truthy(userId) && byId(idKey).Found?)
                                || (Truthy(email) && byEmail(email.value).Found?))
    ensures r.status != Ok && r.status != BadRequest ==>
              r.status == ServerError && r.body.AppResult? && r.body.message == InternalError
    ensures r.status == Ok <==> (Truthy(email) || Truthy(userId)) && !ExistLookupThrows(idKey, email, userId, byId, byEmail)
    ensures Truthy(userId) && byId(idKey).Threw?
            ==> r == Fail(ServerError, InternalError, ErrorText(byId(idKey).message))
    ensures EmailLookupRuns(idKey, email, userId, byId) && byEmail(email.value).Threw?
            ==> r == Fail(ServerError, InternalError, ErrorText(byEmail(email.value).message))
  {
    if !Truthy(email) && !Truthy(userId) then Fail(BadRequest, UseridOrEmailRequired, NoDetails)
    else
      var first: Lookup<User> := if Truthy(userId) then byId(idKey) else NotFound;
      if first.Threw? then Fail(ServerError, InternalError, ErrorText(first.message))
      else if first.Found? then Respond(Ok, Payload(true))
      else if !Truthy(email) then Respond(Ok, Payload(false))
      else
        match byEmail(email.value)
        case Threw(m) => Fail(ServerError, InternalError, ErrorText(m))
        case Found(_) => Respond(Ok, Payload(true))
        case NotFound => Respond(Ok, Payload(false))
  }

  /** `doesUserExist` as written: the id lookup is handed the email. */
  function DoesUserExistAsWritten(email: Option<string>, userId: Option<string>,
                                  byId: Option<string> -> Lookup<User>, byEmail: string -> Lookup<User>): (r: Response<bool>)
    ensures r.Respond?
    ensures !Truthy(email) && !Truthy(userId) <==> r == Fail(BadRequest, UseridOrEmailRequired, NoDetails)
    ensures r.status == Ok ==>
              r.body == Payload((Truthy(userId) && byId(email).Found?) || (Truthy(email) && byEmail(email.value).Found?))
    ensures r.status == Ok <==> (Truthy(email) || Truthy(userId)) && !ExistLookupThrows(email, email, userId, byId, byEmail)
    ensures r.status != Ok && r.status != BadRequest ==> r.status == ServerError && r.body.AppResult?
  {
    DoesUserExistWith(email, email, userId, byId, byEmail)
  }

  /** `doesUserExist` with the id lookup handed the user id. */
  function DoesUserExist(email: Option<string>, userId: Option<string>,
                         byId: Option<string> -> Lookup<User>, byEmail: string -> Lookup<User>): (r: Response<bool>)
    ensures r.Respond?
    ensures !Truthy(email) && !Truthy(userId) <==> r == Fail(BadRequest, UseridOrEmailRequired, NoDetails)
    ensures r.status == Ok ==>
              r.body == Payload((Truthy(userId) && byId(userId).Found?) || (Truthy(email) && byEmail(email.value).Found?))
    ensures r.status == Ok <==> (Truthy(email) || Truthy(userId)) && !ExistLookupThrows(userId, email, userId, byId, byEmail)
    ensures r.status != Ok && r.status != BadRequest ==> r.status == ServerError && r.body.AppResult?
  {
    DoesUserExistWith(userId, email, userId, byId, byEmail)
  }

  /** A request with a user id and no email, against the stored users. As
      written the id query gets the undefined email, and the filter left
      over matches the first stored user: the answer is whether any user is
      stored at all. Handed the id, it is whether a user with that id is. */
  lemma DoesUserExistMissesById(users: seq<User>, id: string, byEmail: string -> Lookup<User>)
    requires ObjectIdText(id)
    ensures var byId := (k: Option<string>) => FindUserById(users, k);
            && DoesUserExistAsWritten(None, Some(id), byId, byEmail) == Respond(Ok, Payload(|users| > 0))
            && DoesUserExist(None, Some(id), byId, byEmail)
               == Respond(Ok, Payload(exists i :: 0 <= i < |users| && users[i].id == Some(id)))
  {
  }

  /** With both an id and an email, as written the id query is asked about
      the email; an email that is no ObjectId text fails the cast, and the
      reply is 500 whatever is stored. */
  lemma DoesUserExistEmailFailsCast(users: seq<User>, email: string, id: string, byEmail: string -> Lookup<User>)
    requires email != "" && !ObjectIdText(email) && id != ""
    ensures DoesUserExistAsWritten(Some(email), Some(id), k => FindUserById(users, k), byEmail)
            == Fail(ServerError, InternalError, ErrorText(CastFailure(email)))
  {
  }

  /** The lookup `getUser` consults, in its priority order. */
  function ChosenLookup(idKey: Option<string>, email: Option<string>, userId: Option<string>, authId: Option<string>,
                        byId: Option<string> -> Lookup<User>, byEmail: string -> Lookup<User>,
                        byAuthId: string -> Lookup<User>): Option<Lookup<User>>
  {
    if Truthy(userId) then Some(byId(idKey))
    else if Truthy(email) then Some(byEmail(email.value))
    else if Truthy(authId) then Some(byAuthId(authId.value))
    else None
  }

  /** The `getUser` ladder, with the key of its id lookup as a parameter.
      Exactly one lookup runs, chosen by the first truthy of `userId`,
      `email`, `authId`. */
  function GetUserWith(idKey: Option<string>, email: Option<string>, userId: Option<string>, authId: Option<string>,
                       tokenEmail: Option<string>,
                       byId: Option<string> -> Lookup<User>, byEmail: string -> Lookup<User>,
                       byAuthId: string -> Lookup<User>): (r: Response<User>)
    ensures r.Respond?
    ensures !Truthy(userId) && !Truthy(email) && !Truthy(authId) ==> r == Fail(BadRequest, MissingProps, NoDetails)
    ensures r.status != UnauthorizedStatus
  {
    // The handler passes the token email as the token uid and no auth id.
    if !IsUserAuthorized(tokenEmail, tokenEmail, None) then
      Fail(UnauthorizedStatus, Unauthorized, DetailMessage(TokenFromAnotherUser))
    else
      var found := ChosenLookup(idKey, email, userId, authId, byId, byEmail, byAuthId);
      if found.None? then Fail(BadRequest, MissingProps, NoDetails)
      else
        match found.value
        case NotFound => Fail(BadRequest, UserNotFound, NoDetails)
        case Found(u) => Respond(Ok, Payload(u))
        case Threw(m) => Fail(ServerError, InternalError, ErrorText(m))
  }

  /** `getUser` as written: the id lookup is handed the email. */
  function GetUserAsWritten(email: Option<string>, userId: Option<string>, authId: Option<string>,
                            tokenEmail: Option<string>,
                            byId: Option<string> -> Lookup<User>, byEmail: string -> Lookup<User>,
                            byAuthId: string -> Lookup<User>): (r: Response<User>)
    ensures r.Respond? && r.status != UnauthorizedStatus
    ensures Truthy(userId) && byId(email).Found? ==> r == Respond(Ok, Payload(byId(email).value))
  {
    GetUserWith(email, email, userId, authId, tokenEmail, byId, byEmail, byAuthId)
  }

  /** `getUser` with the id lookup handed the user id. */
  function GetUser(email: Option<string>, userId: Option<string>, authId: Option<string>,
                   tokenEmail: Option<string>,
                   byId: Option<string> -> Lookup<User>, byEmail: string -> Lookup<User>,
                   byAuthId: string -> Lookup<User>): (r: Response<User>)
    ensures r.Respond? && r.status != UnauthorizedStatus
    ensures Truthy(userId) && byId(userId).Found? ==> r == Respond(Ok, Payload(byId(userId).value))
  {
    GetUserWith(userId, email, userId, authId, tokenEmail, byId, byEmail, byAuthId)
  }

  /** The reply of `getUser` depends only on the lookup its priority order
      picks: 400 `MISSING_PROPS` when there is none, 400 `USER_NOT_FOUND`
      on a miss, 200 with the user on a hit. */
  lemma {:induction false} GetUserFollowsPriority(idKey: Option<string>, email: Option<string>, userId: Option<string>,
                                                  authId: Option<string>, tokenEmail: Option<string>,
                                                  byId: Option<string> -> Lookup<User>, byEmail: string -> Lookup<User>,
                                                  byAuthId: string -> Lookup<User>)
    ensures var l := ChosenLookup(idKey, email, userId, authId, byId, byEmail, byAuthId);
            var r := GetUserWith(idKey, email, userId, authId, tokenEmail, byId, byEmail, byAuthId);
            && (l.None? ==> r == Fail(BadRequest, MissingProps, NoDetails))
            && (l.Some? && l.value.NotFound? ==> r == Fail(BadRequest, UserNotFound, NoDetails))
            && (l.Some? && l.value.Found? ==> r == Respond(Ok, Payload(l.value.value)))
            && (l.Some? && l.value.Threw? ==> r == Fail(ServerError, InternalError, ErrorText(l.value.message)))
  {
    assert IsUserAuthorized(tokenEmail, tokenEmail, None);
  }

  /** A user asked for by id alone, against the stored users. As written
      the id query gets the undefined email and answers with the first
      stored user, whoever that is; handed the id, the reply is the user
      with that id, or 400 when none is stored. */
  lemma GetUserMissesById(users: seq<User>, id: string, authId: Option<string>, tokenEmail: Option<string>,
                          byEmail: string -> Lookup<User>, byAuthId: string -> Lookup<User>)
    requires ObjectIdText(id)
    ensures var byId := (k: Option<string>) => FindUserById(users, k);
            && GetUserAsWritten(None, Some(id), authId, tokenEmail, byId, byEmail, byAuthId)
               == (if |users| > 0 then Respond(Ok, Payload(users[0])) else Fail(BadRequest, UserNotFound, NoDetails))
            && var r := GetUser(None, Some(id), authId, tokenEmail, byId, byEmail, byAuthId);
            && ((exists i :: 0 <= i < |users| && users[i].id == Some(id))
                <==> r.Respond? && r.status == Ok)
            && (r.Respond? && r.status == Ok ==> r.body.Payload? && r.body.value.id == Some(id))
            && (r.Respond? && r.status != Ok ==> r == Fail(BadRequest, UserNotFound, NoDetails))
  {
    GetUserFollowsPriority(None, None, Some(id), authId, tokenEmail, k => FindUserById(users, k), byEmail, byAuthId);
    GetUserFollowsPriority(Some(id), None, Some(id), authId, tokenEmail, k => FindUserById(users, k), byEmail, byAuthId);
  }

  /** `getUserPlan`: the plan of the user with that id, and nothing else. */
  function GetUserPlan(userId: Option<string>, byId: string -> Lookup<User>): (r: Response<int>)
    ensures r.Respond?
    ensures !Truthy(userId) ==> r == Fail(BadRequest, UserIdMissing, NoDetails)
    ensures r.status == Ok <==> Truthy(userId) && byId(userId.value).Found?
    ensures r.status == Ok ==> r.body == Payload(byId(userId.value).value.plan)
    ensures Truthy(userId) && byId(userId.value).NotFound? ==> r == Fail(BadRequest, UserNotFound, NoDetails)
    ensures Truthy(userId) && byId(userId.value).Threw?
            ==> r == Fail(ServerError, InternalError, ErrorText(byId(userId.value).message))
  {
    if !Truthy(userId) then Fail(BadRequest, UserIdMissing, NoDetails)
    else
      match byId(userId.value)
      case NotFound => Fail(BadRequest, UserNotFound, NoDetails)
      case Found(u) => Respond(Ok, Payload(u.plan))
      case Threw(m) => Fail(ServerError, InternalError, ErrorText(m))
  }

  /** The fields of a user request body `createUser` reads or overrides. */
  datatype UserBody = UserBody(
    authId: Option<string>,
    firstName: Option<string>,
    lastName: Option<string>,
    email: Option<string>,
    plan: Option<int>)

  predicate UserBodyValid(b: UserBody)
  {
    Truthy(b.email) && Truthy(b.firstName) && Truthy(b.lastName)
  }

  /** The plan every new user gets: the parsed `DEFAULT_USER_PLAN` setting
      when it is set and non-empty, else the built-in default. */
  function DefaultPlan(setting: Option<string>, parsePlan: string -> int, builtIn: int): int
  {
    if Truthy(setting) then parsePlan(setting.value) else builtIn
  }

  /** The `createUser` ladder, with the read of the built-in default plan
      (`PlansTypes.PLATINUM`, the first statement of the `try`) as an
      outcome. `body.authId` is read before the body is checked for
      presence, so a missing body escapes and `USER_REQUIRED` is never
      sent; the store receives the body with its plan replaced by the
      default. */
  function CreateUserWith(builtIn: Outcome<int>, body: Option<UserBody>, tokenEmail: Option<string>, tokenUid: Option<string>,
                          setting: Option<string>, parsePlan: string -> int,
                          create: UserBody -> Lookup<User>): Handled<UserBody, User>
  {
    if body.None? then Handled(None, Unhandled)
    else
      var user := body.value;
      if !IsUserAuthorized(tokenEmail, tokenUid, user.authId) then Handled(None, Fail(UnauthorizedStatus, Unauthorized, NoDetails))
      else if !UserBodyValid(user) then Handled(None, Fail(BadRequest, UserInvalid, NoDetails))
      else
        match builtIn
        case Raised(m) => Handled(None, Fail(ServerError, InternalError, ErrorText(m)))
        case Returned(plan) =>
          var overridden := user.(plan := Some(DefaultPlan(setting, parsePlan, plan)));
          Handled(Some(overridden),
            match create(overridden)
            case NotFound => Fail(BadRequest, UserCreating, NoDetails)
            case Found(u) => Respond(Ok, Payload(u))
            case Threw(m) => Fail(ServerError, InternalError, ErrorText(m)))
  }

  /** `createUser` as written: `PlansTypes` is not exported by the user
      model, so reading its `PLATINUM` member raises a type error with the
      given message; the catch answers 500 and nothing is ever stored. */
  function CreateUserAsWritten(typeError: string, body: Option<UserBody>, tokenEmail: Option<string>, tokenUid: Option<string>,
                               setting: Option<string>, parsePlan: string -> int,
                               create: UserBody -> Lookup<User>): (h: Handled<UserBody, User>)
    ensures h.stored.None?
    ensures body.Some? && IsUserAuthorized(tokenEmail, tokenUid, body.value.authId) && UserBodyValid(body.value)
            ==> h.response == Fail(ServerError, InternalError, ErrorText(typeError))
    ensures body.None? ==> h.response == Unhandled
    ensures body.Some? && !IsUserAuthorized(tokenEmail, tokenUid, body.value.authId)
            ==> h.response == Fail(UnauthorizedStatus, Unauthorized, NoDetails)
  {
    CreateUserWith(Raised(typeError), body, tokenEmail, tokenUid, setting, parsePlan, create)
  }

  /** `createUser` with a built-in default plan to read. */
  function CreateUser(body: Option<UserBody>, tokenEmail: Option<string>, tokenUid: Option<string>,
                      setting: Option<string>, parsePlan: string -> int, builtIn: int,
                      create: UserBody -> Lookup<User>): (h: Handled<UserBody, User>)
    ensures body.None? ==> h == Handled(None, Unhandled)
    ensures body.Some? && !IsUserAuthorized(tokenEmail, tokenUid, body.value.authId)
            ==> h == Handled(None, Fail(UnauthorizedStatus, Unauthorized, NoDetails))
    ensures body.Some? && IsUserAuthorized(tokenEmail, tokenUid, body.value.authId) && !UserBodyValid(body.value)
            ==> h == Handled(None, Fail(BadRequest, UserInvalid, NoDetails))
    ensures h.stored.Some? <==> body.Some? && IsUserAuthorized(tokenEmail, tokenUid, body.value.authId) && UserBodyValid(body.value)
    ensures h.stored.Some? ==>
              h.stored.value.plan == Some(DefaultPlan(setting, parsePlan, builtIn))
              && h.stored.value.(plan := body.value.plan) == body.value
    ensures h.stored.Some? && create(h.stored.value).Found? ==> h.response == Respond(Ok, Payload(create(h.stored.value).value))
    ensures h.stored.Some? && create(h.stored.value).NotFound? ==> h.response == Fail(BadRequest, UserCreating, NoDetails)
    ensures h.stored.Some? && create(h.stored.value).Threw?
            ==> h.response == Fail(ServerError, InternalError, ErrorText(create(h.stored.value).message))
  {
    CreateUserWith(Returned(builtIn), body, tokenEmail, tokenUid, setting, parsePlan, create)
  }

  /** Whatever plan the client asks for, the stored user gets the default. */
  lemma {:induction false} ClientPlanIgnored(b: UserBody, p: int, tokenEmail: Option<string>, tokenUid: Option<string>,
                                             setting: Option<string>, parsePlan: string -> int, builtIn: int,
                                             create: UserBody -> Lookup<User>)
    ensures CreateUser(Some(b), tokenEmail, tokenUid, setting, parsePlan, builtIn, create).stored
            == CreateUser(Some(b.(plan := Some(p))), tokenEmail, tokenUid, setting, parsePlan, builtIn, create).stored
  {
    var b2 := b.(plan := Some(p));
    assert b2.authId == b.authId && (UserBodyValid(b2) <==> UserBodyValid(b));
  }

  /** `createUser` never answers `USER_REQUIRED`. */
  lemma UserRequiredUnreachable(body: Option<UserBody>, tokenEmail: Option<string>, tokenUid: Option<string>,
                                setting: Option<string>, parsePlan: string -> int, builtIn: int,
                                create: UserBody -> Lookup<User>)
    ensures CreateUser(body, tokenEmail, tokenUid, setting, parsePlan, builtIn, create).response
            != Fail(BadRequest, UserRequired, NoDetails)
  {
  }

  /** `deleteUser`: both ids are required before authorisation is looked at;
      past both checks the reply is the user service's (`service`), or 500
      if it throws. */
  function DeleteUser<T>(userId: Option<string>, authId: Option<string>,
                         tokenEmail: Option<string>, tokenUid: Option<string>,
                         service: Outcome<Response<T>>): (r: Response<T>)
    ensures !Truthy(userId) || !Truthy(authId) ==> r == Fail(BadRequest, InvalidRequest, NoDetails)
    ensures Truthy(userId) && Truthy(authId) && !IsUserAuthorized(tokenEmail, tokenUid, authId)
            ==> r == Fail(UnauthorizedStatus, Unauthorized, NoDetails)
    ensures Truthy(userId) && Truthy(authId) && IsUserAuthorized(tokenEmail, tokenUid, authId) && service.Returned?
            ==> r == service.value
    ensures Truthy(userId) && Truthy(authId) && IsUserAuthorized(tokenEmail, tokenUid, authId) && service.Raised?
            ==> r == Fail(ServerError, InternalError, ErrorText(service.message))
  {
    if !Truthy(userId) || !Truthy(authId) then Fail(BadRequest, InvalidRequest, NoDetails)
    else if !IsUserAuthorized(tokenEmail, tokenUid, authId) then Fail(UnauthorizedStatus, Unauthorized, NoDetails)
    else
      match service
      case Returned(reply) => reply
      case Raised(m) => Fail(ServerError, InternalError, ErrorText(m))
  }

  /** A request missing either id is refused the same way whatever the token. */
  lemma DeleteChecksIdsBeforeToken<T>(userId: Option<string>, authId: Option<string>,
                                      e1: Option<string>, u1: Option<string>, e2: Option<string>, u2: Option<string>,
                                      s1: Outcome<Response<T>>, s2: Outcome<Response<T>>)
    requires !Truthy(userId) || !Truthy(authId)
    ensures DeleteUser(userId, authId, e1, u1, s1) == DeleteUser(userId, authId, e2, u2, s2)
  {
  }
}
