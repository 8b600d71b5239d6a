/**
 * The user table as the API routes see it, and what the routes share: the
 * session check and the shape of a JSON reply.
 */
module Users {
  import opened Wrappers

  /** A row of the `User` table (the columns the routes read or write). */
  datatype User = User(
    id: string,
    name: Option<string>,
    email: string,
    image: Option<string>,
    password: Option<string>,
    createdAt: int,
    tarif: string)

  /** The table, keyed by user id. */
  type Store = map<string, User>

  /** A route's answer: a JSON body with status 200, or `{ error }` with an error status. */
  datatype Reply<T> = Ok(body: T) | Fail(status: int, error: string)

  const Unauthorized := "Не авторизован"
  const UserNotFound := "Пользователь не найден"
  const InternalError := "Внутренняя ошибка сервера"

  /** `session?.user?.id` is truthy: there is a session whose user id is a non-empty string. */
  predicate Authorized(sessionUserId: Option<string>) {
    sessionUserId.Some? && sessionUserId.value != ""
  }

  /** Two tables agree everywhere except, possibly, on one user's row. */
  predicate SameExcept(a: Store, b: Store, id: string) {
    a.Keys == b.Keys && forall k :: k in a && k != id ==> a[k] == b[k]
  }
}
