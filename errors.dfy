/** The error values that cross the business layer.
    `BizError` lists the sentinels of the business-error package; `Error` adds the
    other kinds of error a store call or a service can return, so that "which error
    wins" can be stated by equality. */
module Errors {

  /** One constructor per business sentinel, in the order the package declares them. */
  datatype BizError =
    | NoPermission
    | BuildingNotFound
    | BuildingsNotFound
    | InternalServer
    | AuthToken
    | InvalidBuilding
    | InvalidPass
    | StatusNotFormed
    | CannotBeDeleted
    | CannotBeEditing
    | PassesNotFound
    | StatusNotDraft
    | BuildingAlreadyAdded
    | CannotBeFormed
    | InvalidPassBuilding
    | PassIsNotDraft
    | ShortPassword
    | UserAlreadyExists
    | PassNotFound

  /** The store calls a request makes. A call named in a request's fault set is one
      that the database or the object store fails this time (lost connection, bad
      statement, unreachable bucket and the like). */
  datatype Call =
    // statements of the pass repository
    | PassQuery | PassItemsQuery | IdQuery | DraftIdQuery | ItemsCountQuery
    | NewDraftPassExec | AddToPassExec | DeletePassExec
    | PassShortQuery | StatusByUserExec | StatusByModeratorExec | WasVisitedExec
    | EditPassExec | EditCommentExec | DeleteItemExec
    // statements of the building repository
    | AllBuildingsQuery | FindBuildingsQuery | BuildingQuery
    | ImgUrlExec | InfoExec | StatusExec | SaveBuildingExec
    // statements of the user store
    | UserQuery | NewUserExec | EditUserExec
    // requests to the object store
    | PutPreview | RemovePreview | PutQRCode

  datatype Error =
    | Biz(kind: BizError)      // a business sentinel
    | NotFound                 // the repository sentinel "not found"
    | NoRows                   // the driver's "no rows", passed through unwrapped
    | Message(text: string)    // an error made on the spot from a message
    | Db(call: Call)           // an infrastructure failure of that store call
    | HashFailure              // the password hash could not be computed
    | Panic                    // the call aborts with a run-time panic and returns nothing

  datatype Option<+T> = None | Some(value: T)

  /** A value or an error: the `(T, error)` pair of a Go call. */
  datatype Result<+T> = Ok(value: T) | Err(error: Error)

  /** The single `error` result of a Go call: nil or an error. */
  datatype Outcome = Success | Failure(error: Error)
}
