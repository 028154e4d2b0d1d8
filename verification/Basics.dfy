/** Vocabulary shared by every component: identifiers, clock readings, configuration and the
    two library primitives (SHA-256 and argon2) reduced to the facts the service relies on. */
module Basics {

  datatype Option<+T> = None | Some(value: T)

  /** A uuid, a `jti` or an opaque token. Fresh ones are drawn from an increasing supply. */
  type Id = nat

  /** A reading of the clock, in milliseconds. */
  type Millis = int

  /** SHA-256 taken to be injective on opaque tokens. */
  datatype TokenHash = Sha256(raw: Id)

  /** argon2 taken to verify exactly the password that was hashed. */
  datatype PasswordHash = Argon2(password: string)

  predicate Verify(hash: PasswordHash, password: string) {
    hash.password == password
  }

  /** `jwt.accessTokenTtl` in seconds and `refreshToken.ttlDays` in days; any integers. */
  datatype Config = Config(accessTokenTtl: int, refreshTtlDays: int)

  const MILLIS_PER_SECOND: int := 1000
  const MILLIS_PER_DAY: int := 24 * 60 * 60 * 1000
  const RESET_TTL_MILLIS: int := 30 * 60 * 1000

  /** `Math.floor(ms / 1000)`; Dafny's division by a positive number is floor division. */
  function Seconds(t: Millis): int {
    t / MILLIS_PER_SECOND
  }

  function RefreshTtlMillis(c: Config): int {
    c.refreshTtlDays * MILLIS_PER_DAY
  }

  datatype RequestMeta = RequestMeta(userAgent: Option<string>, ipAddress: Option<string>)

  datatype Error =
    | EmailTaken
    | InvalidCredentials
    | InvalidRefreshToken
    | RefreshTokenReused
    | RefreshTokenExpired
    | UserNotFound
    | InvalidResetToken
    | WrongPassword
    | SessionNotFound
    | Unauthenticated
    | Forbidden
    | RoleNotFound
    | NameTaken
    | UnknownNames(names: seq<string>)

  datatype Result<+T> = Ok(value: T) | Err(error: Error)
}
