/**
 * The permission logic shared by the post and comment edit/delete views:
 * the author check, what happens on a refusal, and where a successful
 * change redirects to. The order of the checks is that of the views'
 * dispatch: the login check first, then the author check.
 */
module Mixin {
  import opened Wrappers
  import opened Routes
  import opened Models

  /** `OnlyAuthorMixin.test_func`: the requester is the author; an anonymous requester never is. */
  function TestFunc(author: UserId, requester: Option<UserId>): (allowed: bool)
    ensures allowed <==> requester.Some? && requester.value == author
    ensures requester.None? ==> !allowed
  {
    requester == Some(author)
  }

  /**
   * Dispatch of the post edit and delete views. An anonymous requester and a
   * requester who is not the author both end in `PostMixin.handle_no_permission`,
   * which looks the post up (not found if it does not exist) and redirects to
   * its detail page.
   */
  function PostAccess(posts: seq<Post>, postId: int, requester: Option<UserId>): (resp: Response<Post>)
    ensures FindPost(posts, postId).None? ==> resp.NotFound?
    ensures resp.Found? <==>
      FindPost(posts, postId).Some? && requester == Some(FindPost(posts, postId).value.author)
    ensures resp.Found? ==> resp.value in posts && resp.value.id == postId
    ensures resp.Redirect? <==>
      FindPost(posts, postId).Some? && requester != Some(FindPost(posts, postId).value.author)
    ensures resp.Redirect? ==> resp.route == PostDetail(postId)
    ensures !resp.Denied?
  {
    match FindPost(posts, postId)
    case None => NotFound
    case Some(p) =>
      if requester.None? then Redirect(PostDetail(p.id))
      else if TestFunc(p.author, requester) then Found(p)
      else Redirect(PostDetail(p.id))
  }

  /** `PostMixin.get_success_url`: the profile of the post's author. */
  function PostSuccessUrl(p: Post): Route
  {
    Profile(p.author)
  }

  /** A deleted post sends its author, who is the requester, to their own profile. */
  lemma PostDeleteRedirectsToOwnProfile(posts: seq<Post>, postId: int, requester: Option<UserId>)
    requires PostAccess(posts, postId, requester).Found?
    ensures requester.Some?
    ensures PostSuccessUrl(PostAccess(posts, postId, requester).value) == Profile(requester.value)
  {
  }

  datatype CommentAction = Create | Update(commentId: int) | Delete(commentId: int)

  /**
   * Dispatch of the comment views: the post named in the URL must exist
   * (checked before anything else), then the requester must be logged in,
   * then, to change a comment, the comment must exist and the requester must
   * be its author. Refusals are left to the framework's default handling.
   * A granted change carries the comment; a granted create carries nothing.
   */
  function CommentAccess(posts: seq<Post>, comments: seq<Comment>, postId: int,
                         action: CommentAction, requester: Option<UserId>): (resp: Response<Option<Comment>>)
    ensures FindPost(posts, postId).None? ==> resp.NotFound?
    ensures resp.Found? ==> requester.Some? && FindPost(posts, postId).Some?
    ensures resp.Found? && action.Create? ==> resp.value.None?
    ensures resp.Found? && !action.Create? ==>
      resp.value.Some? && resp.value.value in comments && resp.value.value.id == action.commentId
      && requester == Some(resp.value.value.author)
    ensures FindPost(posts, postId).Some? && requester.Some? && action.Create? ==> resp.Found?
    ensures FindPost(posts, postId).Some? && requester.Some? && !action.Create?
      && FindComment(comments, action.commentId).Some?
      && FindComment(comments, action.commentId).value.author == requester.value
      ==> resp.Found?
    ensures !resp.Redirect?
  {
    if FindPost(posts, postId).None? then NotFound
    else if requester.None? then Denied
    else if action.Create? then Found(None)
    else
      match FindComment(comments, action.commentId)
      case None => NotFound
      case Some(c) => if TestFunc(c.author, requester) then Found(Some(c)) else Denied
  }

  /** The comment views' state: the post named in the URL, set by `Dispatch`. */
  class CommentView {
    var curPost: Option<Post>

    constructor ()
      ensures curPost.None?
    {
      curPost := None;
    }

    /** `CommentMixin.get_success_url`: the detail page of the URL's post. */
    function SuccessUrl(): Route
      reads this
      requires curPost.Some?
    {
      PostDetail(curPost.value.id)
    }

    /** `CommentMixin.dispatch`: remember the URL's post, then run the access checks. */
    method Dispatch(posts: seq<Post>, comments: seq<Comment>, postId: int,
                    action: CommentAction, requester: Option<UserId>) returns (resp: Response<Option<Comment>>)
      modifies this
      ensures curPost == FindPost(posts, postId)
      ensures resp == CommentAccess(posts, comments, postId, action, requester)
      ensures curPost.Some? ==> SuccessUrl() == PostDetail(postId)
    {
      curPost := FindPost(posts, postId);
      if curPost.None? {
        return NotFound;
      }
      if requester.None? {
        return Denied;
      }
      match action {
        case Create =>
          resp := Found(None);
        case Update(id) =>
          resp := ChangeAccess(comments, id, requester);
        case Delete(id) =>
          resp := ChangeAccess(comments, id, requester);
      }
    }

    /** `UserPassesTestMixin.dispatch` for a comment: look it up, then test its author. */
    static method ChangeAccess(comments: seq<Comment>, commentId: int, requester: Option<UserId>)
      returns (resp: Response<Option<Comment>>)
      ensures resp.Found? <==>
        (FindComment(comments, commentId).Some?
         && TestFunc(FindComment(comments, commentId).value.author, requester))
      ensures resp.Found? ==> resp.value == FindComment(comments, commentId)
      ensures !resp.Found? ==> (if FindComment(comments, commentId).None? then resp.NotFound? else resp.Denied?)
    {
      var c := FindComment(comments, commentId);
      if c.None? {
        return NotFound;
      }
      if TestFunc(c.value.author, requester) {
        return Found(c);
      }
      return Denied;
    }
  }
}
