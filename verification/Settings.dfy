/**
 The configured limits, at their defaults. Every instant and duration of the
 model is a whole number of milliseconds; claims inside access tokens are whole
 seconds, as they are on the wire.
 */
module Settings {

  const SECOND: int := 1000
  const DAY: int := 86400 * SECOND

  const ACCESS_TOKEN_LIFETIME: int := 15 * 60 * SECOND
  const REFRESH_TOKEN_LIFETIME: int := 7 * DAY
  const VERIFICATION_TOKEN_TTL: int := 30 * 60 * SECOND
  const PASSWORD_RESET_TOKEN_TTL: int := 30 * 60 * SECOND
  const REFRESH_REUSE_GRACE: int := 5 * SECOND
  const MAX_LOGIN_ATTEMPTS: int := 5
  const LOCKOUT_WINDOW: int := 900 * SECOND
}
