/** The request-scoped context the middlewares write into, and how a handler ends. */
module Http {

  const StatusBadRequest: int := 400
  const StatusUnauthorized: int := 401

  /** Context keys the two gates use. */
  const UserIdKey: string := "user_id"
  const GoogleIdKey: string := "google_id"
  const AccessTokenKey: string := "googleAccessToken"

  /** How a middleware's handler ends: it passes the request on, writes a JSON
      error body `{"error": message}`, or returns an HTTP error for the
      framework to render. */
  datatype Outcome =
    | CalledNext
    | JsonError(status: int, message: string)
    | HttpError(status: int, message: string)

  /** The request context: string values under string keys. */
  class Context {
    var values: map<string, string>

    constructor (initial: map<string, string>)
      ensures values == initial
    {
      values := initial;
    }

    /** `c.Set(key, value)`. */
    method Set(key: string, value: string)
      modifies this
      ensures values == old(values)[key := value]
    {
      values := values[key := value];
    }
  }
}
