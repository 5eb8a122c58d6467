/**
 The constants the interceptor compares errors against: the two
 authentication codes of the `ErrorCode` enum and the transport-level
 "unauthorized" status.
 */
module ErrorCodes {

  /** `ErrorCode.REFRESH_TOKEN_INVALID`: the refresh credential itself is unusable. */
  const RefreshTokenInvalid: string := "auth.exception.refresh_token_invalid"

  /** `ErrorCode.ACCESS_TOKEN_EXPIRED`: the access credential has expired. */
  const AccessTokenExpired: string := "auth.exception.access_token_expired"

  /** HTTP status 401 Unauthorized. */
  const UnauthorizedStatus: int := 401

}
