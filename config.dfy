/**
 * The settings the core reads, at the defaults `src/utils/config.py`
 * declares. Settings that module does not declare are parameters of the
 * operations that read them.
 */
module Config {
  /** Questions per window for a guest session. */
  const AnonymousRateLimit: int := 10

  /** Questions per window for a signed-in session. */
  const AuthenticatedRateLimit: int := 50

  const RateLimitWindowHours: int := 1

  /** The window length in seconds, the unit the model keeps time in. */
  const RateLimitWindowSeconds: int := RateLimitWindowHours * 3600

  /** Sent to the backend as `X-Client-Version`. */
  const ClientVersion: string := "1.0.0"
}
