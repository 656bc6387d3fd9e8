/**
 * The named routes of the blog application, as values, and the outcome of a
 * request: the requested object, "not found", a redirect to a named route, or
 * a refusal left to the framework's default handling (403 or login redirect).
 */
module Routes {
  type UserId = int

  datatype Route =
    | PostDetail(postId: int)
    | Profile(user: UserId)

  datatype Response<+T> =
    | Found(value: T)
    | NotFound
    | Redirect(route: Route)
    | Denied
}
