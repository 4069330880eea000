/**
 * The sentinel errors of the client (errors.go), plus the two it uses without
 * declaring there (ErrInvalidAddress in the DNS cache, ErrInvalidStashTabRateLimit
 * in the option validator), and the Option / Result wrappers that stand for
 * Go's `error` (nil or not) and `(T, error)` returns.
 */
module Errors {

  datatype Error =
    | BadRequest                  // ErrBadRequest
    | NotFound                    // ErrNotFound
    | RateLimited                 // ErrRateLimited
    | ServerFailure               // ErrServerFailure
    | UnknownFailure              // ErrUnknownFailure
    | InvalidHost                 // ErrInvalidHost
    | InvalidRateLimit            // ErrInvalidRateLimit
    | InvalidStashRateLimit       // ErrInvalidStashRateLimit
    | InvalidStashTabRateLimit    // ErrInvalidStashTabRateLimit (used by options.go only)
    | InvalidCacheSize            // ErrInvalidCacheSize
    | MissingID                   // ErrMissingID
    | InvalidRealm                // ErrInvalidRealm
    | InvalidLimit                // ErrInvalidLimit
    | InvalidOffset               // ErrInvalidOffset
    | InvalidLadderType           // ErrInvalidLadderType
    | InvalidDifficulty           // ErrInvalidDifficulty
    | InvalidLabyrinthStartTime   // ErrInvalidLabyrinthStartTime
    | InvalidLeagueRuleID         // ErrInvalidLeagueRuleID
    | InvalidSeason               // ErrInvalidSeason
    | InvalidLeagueType           // ErrInvalidLeagueType
    | InvalidLeagueID             // ErrInvalidLeagueID
    | InvalidStashID              // ErrInvalidStashID
    | InvalidAddress              // ErrInvalidAddress (DNS ring slot that is not a string)
    | ChallengeLeagueNotFound     // errors.New("failed to find challenge league")
    | Transport(detail: string)   // an error passed through from the HTTP transport, DNS or decoder

  /** Go's `error` result of a validator: None is nil. */
  datatype Option<+T> = None | Some(value: T)

  /** Go's `(T, error)` pair: exactly one of the two is meaningful. */
  datatype Result<+T> = Success(value: T) | Failure(error: Error)
}
