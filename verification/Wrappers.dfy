/** Option and Result types shared by every module of the model. */
module Wrappers {

  datatype Option<+T> = None | Some(value: T)

  /** The errors the identity service can answer with; Internal stands for every wrapped
      repository failure. */
  datatype Error =
    | InvalidInput
    | EmailTaken
    | OrganizationSlugTaken
    | InvalidCredentials
    | RefreshTokenInvalid
    | Unauthorized
    | TotpRequired
    | TotpInvalid
    | PermissionDenied
    | ApiKeyInvalid
    | MembershipExists
    | Internal

  datatype Result<+T> = Ok(value: T) | Err(error: Error)
}
