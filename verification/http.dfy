/** What a handler sends back: the status code and either an `AppResult`
    body (`message`, `errorDetails`; mostly an error, sometimes a message
    sent with 200) or a payload. */
module Http {
  import opened Common

  /** The message codes the modelled handlers reply with (the English texts
      live in the message tables and are not modelled). */
  datatype Message =
    | PageIdMissing | PageNotFound | UrlMissingInParams | UserIdMissing
    | UserHasNoPages | PageRequired | PageInvalid | PageUrlAlreadyExist
    | PageCreating | PageUpdating | InternalError
    | UserAssociatedToPageNotFound | NotAuthorized | TokenFromAnotherUser
    | UseridOrEmailRequired | Unauthorized | MissingProps | UserNotFound
    | UserRequired | UserInvalid | UserCreating | InvalidRequest
    | NoApiKeyProvided | FileUploadGeneralError | FileDeleteGeneralError
    | FileDeleteSuccess | ThumbnailDeleted | ThumbnailNotDeleted

  /** The `errorDetails` slot of an `AppResult`. */
  datatype Details = NoDetails | DetailMessage(message: Message) | ErrorText(text: string)

  datatype Body<+T> =
    | Payload(value: T)
    | AppResult(message: Message, details: Details)

  /** `Respond` is a reply the handler sends; `Unhandled` is a promise
      rejection that escapes the handler (an exception outside its try
      block), so the handler itself sends nothing. */
  datatype Response<+T> = Respond(status: int, body: Body<T>) | Unhandled

  /** Outcome of an asynchronous repository or storage call: a document,
      `null`, or a thrown error with its message. */
  datatype Lookup<+T> = Found(value: T) | NotFound | Threw(message: string)

  /** Outcome of an asynchronous call that always yields a value unless it
      throws. */
  datatype Outcome<+T> = Returned(value: T) | Raised(message: string)

  /** A handler that may write: what it handed to the store's write call
      (`None` when it never called it), and its reply. */
  datatype Handled<+W, +T> = Handled(stored: Option<W>, response: Response<T>)

  const Ok := 200
  const BadRequest := 400
  const UnauthorizedStatus := 401
  const ServerError := 500

  /** The `res.status(status).json(new AppResult(message, details, status))` reply. */
  function Fail<T>(status: int, message: Message, details: Details): Response<T>
  {
    Respond(status, AppResult(message, details))
  }

  /** The same `AppResult` reply sent with status 200, as a success. */
  function Succeed<T>(message: Message, details: Details): Response<T>
  {
    Respond(Ok, AppResult(message, details))
  }
}
