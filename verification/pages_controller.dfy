/** The page handlers of `src/controllers/pages.controller.ts` as decision
    ladders: each takes the request's fields and the answers of the
    repositories (as functions from the query to its outcome) and gives the
    reply. `tokenEmail` is the address an authentication middleware put on
    the request, if any. */
module PagesController {
  import opened Common
  import opened Http
  import opened UserModel
  import opened PagesModel

  /** The fields of a page request body the handlers inspect; the rest of
      the body goes to the store as it came. */
  datatype PageBody = PageBody(
    userId: Field<string>,
    name: Field<string>,
    url: Field<string>,
    isPublic: Field<bool>,
    views: Field<int>)

  /** A route parameter as a value handed on: missing is `undefined`. */
  function ParamField(p: Option<string>): (f: Field<string>)
    ensures f.Value? <==> p.Some?
    ensures p.Some? ==> f.value == p.value
  {
    if p.Some? then Value(p.value) else Undefined
  }

  /** `validateTokenByUserId(userId, tokenEmail)`: `None` is its `null`
      (the owner matches the token); `Some(r)` is the reply the caller
      sends instead. It runs outside any `try`, so a failing lookup escapes. */
  function ValidateTokenByUserId<T>(userId: Field<string>, tokenEmail: string,
                                    userById: Field<string> -> Lookup<User>): (r: Option<Response<T>>)
    ensures r.None? <==> userById(userId).Found? && userById(userId).value.email == tokenEmail
    ensures userById(userId).NotFound? ==> r == Some(Fail(BadRequest, UserAssociatedToPageNotFound, NoDetails))
    ensures userById(userId).Found? && userById(userId).value.email != tokenEmail
            ==> r == Some(Fail(UnauthorizedStatus, NotAuthorized, DetailMessage(TokenFromAnotherUser)))
    ensures userById(userId).Threw? ==> r == Some(Unhandled)
  {
    match userById(userId)
    case Threw(_) => Some(Unhandled)
    case NotFound => Some(Fail(BadRequest, UserAssociatedToPageNotFound, NoDetails))
    case Found(u) =>
      if u.email != tokenEmail then Some(Fail(UnauthorizedStatus, NotAuthorized, DetailMessage(TokenFromAnotherUser)))
      else None
  }

  /** The owner check the three body/owner handlers run first: only with a
      token email, and then it may answer in the handler's place. */
  function OwnerCheck<T>(userId: Field<string>, tokenEmail: Option<string>,
                         userById: Field<string> -> Lookup<User>): Option<Response<T>>
  {
    if Truthy(tokenEmail) then ValidateTokenByUserId(userId, tokenEmail.value, userById) else None
  }

  /** `getPageById`. */
  function GetPageById(pageId: Option<string>, pageById: string -> Lookup<Page>): (r: Response<Page>)
    ensures r.Respond?
    ensures !Truthy(pageId) ==> r == Fail(BadRequest, PageIdMissing, NoDetails)
    ensures r.status == Ok <==> Truthy(pageId) && pageById(pageId.value).Found?
    ensures r.status == Ok ==> r.body == Payload(pageById(pageId.value).value)
    ensures Truthy(pageId) && pageById(pageId.value).NotFound? ==> r == Fail(BadRequest, PageNotFound, NoDetails)
    ensures r.status == ServerError <==> Truthy(pageId) && pageById(pageId.value).Threw?
    ensures r.status == ServerError ==> r.body == AppResult(InternalError, ErrorText(pageById(pageId.value).message))
  {
    if !Truthy(pageId) then Fail(BadRequest, PageIdMissing, NoDetails)
    else
      match pageById(pageId.value)
      case NotFound => Fail(BadRequest, PageNotFound, NoDetails)
      case Found(p) => Respond(Ok, Payload(p))
      case Threw(m) => Fail(ServerError, InternalError, ErrorText(m))
  }

  /** `getPageByUrl`: the same ladder, keyed by the url. */
  function GetPageByUrl(url: Option<string>, pageByUrl: string -> Lookup<Page>): (r: Response<Page>)
    ensures r.Respond?
    ensures !Truthy(url) ==> r == Fail(BadRequest, UrlMissingInParams, NoDetails)
    ensures r.status == Ok <==> Truthy(url) && pageByUrl(url.value).Found?
    ensures r.status == Ok ==> r.body == Payload(pageByUrl(url.value).value)
    ensures Truthy(url) && pageByUrl(url.value).NotFound? ==> r == Fail(BadRequest, PageNotFound, NoDetails)
    ensures r.status == ServerError <==> Truthy(url) && pageByUrl(url.value).Threw?
    ensures r.status == ServerError ==> r.body == AppResult(InternalError, ErrorText(pageByUrl(url.value).message))
  {
    if !Truthy(url) then Fail(BadRequest, UrlMissingInParams, NoDetails)
    else
      match pageByUrl(url.value)
      case NotFound => Fail(BadRequest, PageNotFound, NoDetails)
      case Found(p) => Respond(Ok, Payload(p))
      case Threw(m) => Fail(ServerError, InternalError, ErrorText(m))
  }

  /** `getAllUserPagesByUserId`: only a `null` from the store is "no pages";
      an empty list is a success. */
  function GetAllUserPagesByUserId(userId: Option<string>, tokenEmail: Option<string>,
                                   userById: Field<string> -> Lookup<User>,
                                   pagesByUser: string -> Lookup<seq<Page>>): (r: Response<seq<Page>>)
    ensures OwnerCheck<seq<Page>>(ParamField(userId), tokenEmail, userById).Some?
            ==> r == OwnerCheck<seq<Page>>(ParamField(userId), tokenEmail, userById).value
    ensures OwnerCheck<seq<Page>>(ParamField(userId), tokenEmail, userById).None? ==>
              && (!Truthy(userId) ==> r == Fail(BadRequest, UserIdMissing, NoDetails))
              && (Truthy(userId) ==>
                    && (r.Respond? && r.status == Ok <==> pagesByUser(userId.value).Found?)
                    && (pagesByUser(userId.value).Found? ==> r.body == Payload(pagesByUser(userId.value).value))
                    && (pagesByUser(userId.value).NotFound? ==> r == Fail(BadRequest, UserHasNoPages, NoDetails))
                    && (pagesByUser(userId.value).Threw? ==>
                          r == Fail(ServerError, InternalError, ErrorText(pagesByUser(userId.value).message))))
  {
    var check := OwnerCheck<seq<Page>>(ParamField(userId), tokenEmail, userById);
    if check.Some? then check.value
    else if !Truthy(userId) then Fail(BadRequest, UserIdMissing, NoDetails)
    else
      match pagesByUser(userId.value)
      case NotFound => Fail(BadRequest, UserHasNoPages, NoDetails)
      case Found(ps) => Respond(Ok, Payload(ps))
      case Threw(m) => Fail(ServerError, InternalError, ErrorText(m))
  }

  /** The required-field check of the create and update handlers: `name`
      and `url` truthy, `isPublic` and `views` not `undefined` (`null`
      passes). */
  predicate PageBodyValid(b: PageBody)
  {
    FieldTruthy(b.name) && FieldTruthy(b.url) && !b.isPublic.Undefined? && !b.views.Undefined?
  }

  /** `if (url[0] === "/") url = url.substring(1)`: one leading slash goes. */
  function StripLeadingSlash(url: string): (r: string)
    ensures |url| > 0 && url[0] == '/' ==> r == url[1..]
    ensures (|url| == 0 || url[0] != '/') ==> r == url
  {
    if |url| > 0 && url[0] == '/' then url[1..] else url
  }

  /** The body `createUserPage` goes on with once its url is normalised. */
  function Normalised(b: PageBody): (n: PageBody)
    requires b.url.Value?
    ensures n.url.Value? && n.(url := b.url) == b
    ensures n.url.value == StripLeadingSlash(b.url.value)
  {
    b.(url := Value(StripLeadingSlash(b.url.value)))
  }

  /** `createUserPage`. The owner check reads `body.userId` before the
      body is checked for presence, so a missing body with a token email
      escapes. The url is normalised after validation, and the uniqueness
      query (outside the `try`) is asked about the normalised url. */
  function CreateUserPage(body: Option<PageBody>, tokenEmail: Option<string>,
                          userById: Field<string> -> Lookup<User>,
                          urlTaken: string -> Outcome<bool>,
                          create: PageBody -> Lookup<PageBody>): (h: Handled<PageBody, PageBody>)
    ensures Truthy(tokenEmail) && body.None? ==> h == Handled(None, Unhandled)
    ensures h.stored.Some? <==>
              && body.Some? && OwnerCheck<PageBody>(body.value.userId, tokenEmail, userById).None?
              && PageBodyValid(body.value)
              && urlTaken(Normalised(body.value).url.value) == Returned(false)
    ensures h.stored.Some? ==> h.stored.value == Normalised(body.value)
    ensures h.stored.Some? && create(h.stored.value).Found? ==> h.response == Respond(Ok, Payload(create(h.stored.value).value))
    ensures h.stored.Some? && create(h.stored.value).NotFound? ==> h.response == Fail(BadRequest, PageCreating, NoDetails)
    ensures h.stored.Some? && create(h.stored.value).Threw?
            ==> h.response == Fail(ServerError, InternalError, ErrorText(create(h.stored.value).message))
    ensures !Truthy(tokenEmail) && body.None? ==> h == Handled(None, Fail(BadRequest, PageRequired, NoDetails))
    ensures body.Some? && OwnerCheck<PageBody>(body.value.userId, tokenEmail, userById).Some?
            ==> h == Handled(None, OwnerCheck<PageBody>(body.value.userId, tokenEmail, userById).value)
    ensures body.Some? && OwnerCheck<PageBody>(body.value.userId, tokenEmail, userById).None? ==>
              && (!PageBodyValid(body.value) ==> h == Handled(None, Fail(BadRequest, PageInvalid, NoDetails)))
              && (PageBodyValid(body.value) && urlTaken(Normalised(body.value).url.value) == Returned(true)
                  ==> h == Handled(None, Fail(BadRequest, PageUrlAlreadyExist, NoDetails)))
              && (PageBodyValid(body.value) && urlTaken(Normalised(body.value).url.value).Raised?
                  ==> h == Handled(None, Unhandled))
  {
    if Truthy(tokenEmail) && body.None? then Handled(None, Unhandled)
    else
      var check := if body.Some? then OwnerCheck<PageBody>(body.value.userId, tokenEmail, userById) else None;
      if check.Some? then Handled(None, check.value)
      else if body.None? then Handled(None, Fail(BadRequest, PageRequired, NoDetails))
      else if !PageBodyValid(body.value) then Handled(None, Fail(BadRequest, PageInvalid, NoDetails))
      else
        var page := Normalised(body.value);
        match urlTaken(page.url.value)
        case Raised(_) => Handled(None, Unhandled)
        case Returned(taken) =>
          if taken then Handled(None, Fail(BadRequest, PageUrlAlreadyExist, NoDetails))
          else
            Handled(Some(page),
              match create(page)
              case NotFound => Fail(BadRequest, PageCreating, NoDetails)
              case Found(p) => Respond(Ok, Payload(p))
              case Threw(m) => Fail(ServerError, InternalError, ErrorText(m)))
  }

  /** `updateUserPage`: the same owner and field checks as creation, but
      the body goes to the store as it came, with no url normalisation and
      no uniqueness query. */
  function UpdateUserPage(body: Option<PageBody>, tokenEmail: Option<string>,
                          userById: Field<string> -> Lookup<User>,
                          update: PageBody -> Lookup<PageBody>): (h: Handled<PageBody, PageBody>)
    ensures Truthy(tokenEmail) && body.None? ==> h == Handled(None, Unhandled)
    ensures h.stored.Some? <==>
              body.Some? && OwnerCheck<PageBody>(body.value.userId, tokenEmail, userById).None?
              && PageBodyValid(body.value)
    ensures h.stored.Some? ==> h.stored == body
    ensures h.stored.Some? && update(body.value).Found? ==> h.response == Respond(Ok, Payload(update(body.value).value))
    ensures h.stored.Some? && update(body.value).NotFound? ==> h.response == Fail(BadRequest, PageUpdating, NoDetails)
    ensures h.stored.Some? && update(body.value).Threw?
            ==> h.response == Fail(ServerError, InternalError, ErrorText(update(body.value).message))
    ensures !Truthy(tokenEmail) && body.None? ==> h == Handled(None, Fail(BadRequest, PageRequired, NoDetails))
    ensures body.Some? && OwnerCheck<PageBody>(body.value.userId, tokenEmail, userById).Some?
            ==> h == Handled(None, OwnerCheck<PageBody>(body.value.userId, tokenEmail, userById).value)
    ensures (body.Some? && OwnerCheck<PageBody>(body.value.userId, tokenEmail, userById).None?
             && !PageBodyValid(body.value)) ==> h == Handled(None, Fail(BadRequest, PageInvalid, NoDetails))
  {
    if Truthy(tokenEmail) && body.None? then Handled(None, Unhandled)
    else
      var check := if body.Some? then OwnerCheck<PageBody>(body.value.userId, tokenEmail, userById) else None;
      if check.Some? then Handled(None, check.value)
      else if body.None? then Handled(None, Fail(BadRequest, PageRequired, NoDetails))
      else if !PageBodyValid(body.value) then Handled(None, Fail(BadRequest, PageInvalid, NoDetails))
      else
        Handled(body,
          match update(body.value)
          case NotFound => Fail(BadRequest, PageUpdating, NoDetails)
          case Found(p) => Respond(Ok, Payload(p))
          case Threw(m) => Fail(ServerError, InternalError, ErrorText(m)))
  }

  // ----- properties -----

  /** Without a token email the owner check never answers. */
  lemma NoTokenNoOwnerCheck<T>(userId: Field<string>, tokenEmail: Option<string>,
                               userById: Field<string> -> Lookup<User>)
    requires !Truthy(tokenEmail)
    ensures OwnerCheck<T>(userId, tokenEmail, userById).None?
  {
  }

  /** Exactly one leading slash is removed: `//x` keeps one, and `/` alone
      becomes the empty url, which passed validation before it was cut. */
  lemma {:induction false} OneSlashRemoved(x: string)
    ensures StripLeadingSlash("/" + x) == x
    ensures StripLeadingSlash("//" + x) == "/" + x
    ensures StripLeadingSlash("/") == ""
    ensures StripLeadingSlash(StripLeadingSlash("//" + x)) == x
  {
    assert ("/" + x)[1..] == x;
    assert ("//" + x)[1..] == "/" + x;
  }

  /** A page whose url is `/` is stored with the empty url when nothing else
      stops it. */
  lemma SlashUrlStoredEmpty(b: PageBody, userById: Field<string> -> Lookup<User>,
                            urlTaken: string -> Outcome<bool>, create: PageBody -> Lookup<PageBody>)
    requires b.url == Value("/") && FieldTruthy(b.name) && !b.isPublic.Undefined? && !b.views.Undefined?
    requires urlTaken("") == Returned(false)
    ensures CreateUserPage(Some(b), None, userById, urlTaken, create).stored == Some(b.(url := Value("")))
  {
  }

  /** An existing (normalised) url stops the creation before the store is
      asked to write. */
  lemma {:induction false} TakenUrlWritesNothing(b: PageBody, tokenEmail: Option<string>,
                                                 userById: Field<string> -> Lookup<User>,
                                                 urlTaken: string -> Outcome<bool>, create: PageBody -> Lookup<PageBody>)
    requires PageBodyValid(b) && OwnerCheck<PageBody>(b.userId, tokenEmail, userById).None?
    requires urlTaken(StripLeadingSlash(b.url.value)) == Returned(true)
    ensures CreateUserPage(Some(b), tokenEmail, userById, urlTaken, create)
            == Handled(None, Fail(BadRequest, PageUrlAlreadyExist, NoDetails))
  {
    assert Normalised(b).url.value == StripLeadingSlash(b.url.value);
  }

  /** Past the owner check, creation and update refuse the same bodies as
      invalid; a body both accept is written by update as it came and, if
      its normalised url is free, by creation with that url. */
  lemma {:induction false} CreateAndUpdateValidateAlike(body: Option<PageBody>, tokenEmail: Option<string>,
                                                        userById: Field<string> -> Lookup<User>,
                                                        urlTaken: string -> Outcome<bool>,
                                                        create: PageBody -> Lookup<PageBody>,
                                                        update: PageBody -> Lookup<PageBody>)
    requires body.Some? && OwnerCheck<PageBody>(body.value.userId, tokenEmail, userById).None?
    ensures var c := CreateUserPage(body, tokenEmail, userById, urlTaken, create);
            var u := UpdateUserPage(body, tokenEmail, userById, update);
            && ((c.response == Fail(BadRequest, PageInvalid, NoDetails)) <==> (u.response == Fail(BadRequest, PageInvalid, NoDetails)))
            && (u.stored.Some? <==> PageBodyValid(body.value))
            && (u.stored.Some? ==> u.stored == body)
            && (c.stored.Some? <==> u.stored.Some? && urlTaken(StripLeadingSlash(body.value.url.value)) == Returned(false))
            && (c.stored.Some? ==> c.stored.value == u.stored.value.(url := Value(StripLeadingSlash(body.value.url.value))))
  {
  }

  /** The store's `[]` is a success; only its `null` reads as "no pages". */
  lemma EmptyListIsSuccess(userId: string, userById: Field<string> -> Lookup<User>,
                           pagesByUser: string -> Lookup<seq<Page>>)
    requires userId != "" && pagesByUser(userId) == Found([])
    ensures GetAllUserPagesByUserId(Some(userId), None, userById, pagesByUser) == Respond(Ok, Payload([]))
  {
  }
}
