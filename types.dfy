/**
 * Values exchanged between the leaderboard client and its collaborators:
 * users of the directory, ranked leaderboard entries, and the outcome of a
 * network request.
 */
module Types {

  /** A JavaScript value that may be `null` (absent) or hold a value. */
  datatype Option<T> = None | Some(value: T)

  /** The settled outcome of an HTTP request: a response body, or a rejection. */
  datatype Response<T> = Ok(body: T) | Failed

  /** A user of the directory, as returned by `GET /api/users` and `POST /api/users`. */
  datatype User = User(id: string, name: string, totalPoints: int)

  /** One row of a `leaderboardUpdate` snapshot: a user annotated with its rank. */
  datatype Entry = Entry(id: string, name: string, totalPoints: int, rank: int)

  /** JavaScript truthiness of a string: only the empty string is falsy. */
  predicate Truthy(s: string)
  {
    s != ""
  }

  /** JavaScript truthiness of a value that is either `null` or a string. */
  predicate TruthyOption(o: Option<string>)
  {
    o.Some? && Truthy(o.value)
  }
}
