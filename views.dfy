/**
 * The request handlers: which posts each listing shows to which viewer, the
 * detail page with its author bypass, and the create handlers that stamp the
 * requester as author. Listings are returned before pagination
 * (`Utils.PostsPagination` splits them); `viewer` is `None` for an anonymous
 * request and `now` is the request time.
 */
module Views {
  import opened Wrappers
  import opened Seqs
  import opened Routes
  import opened Models
  import opened Utils
  import opened Mixin
  import PostsUtils

  /** `posts_annotate(qs).order_by('-pub_date')`: the rows of `posts`, newest first. */
  function AnnotatedNewestFirst(posts: seq<Post>, comments: seq<Comment>): (r: seq<AnnotatedPost>)
    ensures SortedByPubDateDesc(r, PostOfRow)
    ensures forall p :: p in ListedPosts(r) <==> p in posts
    ensures multiset(ListedPosts(r)) == multiset(posts)
    ensures forall x :: x in r ==> x.commentCount == |CommentsOn(comments, x.post.id)|
  {
    var a := PostsAnnotate(posts, comments);
    var r := OrderByPubDateDesc(a, PostOfRow);
    PostsUtils.AnnotateCommutesWithOrder(posts, comments);
    ListedPostsOfAnnotate(OrderByPubDateDesc(posts, PostOfPost), comments);
    assert forall x :: x in r <==> x in a by {
      forall x ensures x in r <==> x in a {
        assert x in r <==> x in multiset(r);
        assert x in a <==> x in multiset(a);
      }
    }
    assert forall p :: p in posts ==> p in ListedPosts(a) by {
      forall p | p in posts ensures p in ListedPosts(a) {
        var i :| 0 <= i < |posts| && posts[i] == p;
        assert a[i] in a;
      }
    }
    r
  }

  /** The posts of the visible rows are the visible posts of the rows. */
  lemma ListedAfterFilter(rows: seq<AnnotatedPost>, categories: seq<Category>, now: int)
    ensures forall p :: p in ListedPosts(FilteredByPublished(rows, PostOfRow, categories, now)) <==>
      p in ListedPosts(rows) && IsPublished(p, categories, now)
  {
  }

  /** `index`: exactly the publicly visible posts, newest first, with comment counts. */
  function Index(posts: seq<Post>, categories: seq<Category>, comments: seq<Comment>, now: int): (r: seq<AnnotatedPost>)
    ensures forall p :: p in ListedPosts(r) <==> p in posts && IsPublished(p, categories, now)
    ensures multiset(ListedPosts(r)) == multiset(FilteredByPublished(posts, PostOfPost, categories, now))
    ensures SortedByPubDateDesc(r, PostOfRow)
    ensures forall x :: x in r ==> x.commentCount == |CommentsOn(comments, x.post.id)|
  {
    var all := AnnotatedNewestFirst(posts, comments);
    FilteredByPublishedKeepsOrder(all, PostOfRow, categories, now);
    ListedAfterFilter(all, categories, now);
    ListedPostsOfFiltered(all, categories, now);
    FilteredByPublishedPermutation(ListedPosts(all), posts, PostOfPost, categories, now);
    FilteredByPublished(all, PostOfRow, categories, now)
  }

  datatype CategoryPage = CategoryPage(category: Category, posts: seq<AnnotatedPost>)

  /**
   * `category_posts`: not found unless a published category has the slug;
   * otherwise the visible posts of that category, newest first.
   */
  function CategoryPosts(categories: seq<Category>, posts: seq<Post>, comments: seq<Comment>,
                         slug: string, now: int): (resp: Response<CategoryPage>)
    ensures resp.Found? || resp.NotFound?
    ensures resp.NotFound? <==> forall c :: c in categories ==> !(c.slug == slug && c.isPublished)
    ensures resp.Found? ==>
      resp.value.category in categories && resp.value.category.slug == slug && resp.value.category.isPublished
    ensures resp.Found? ==> forall p :: p in ListedPosts(resp.value.posts) <==>
      p in posts && p.category == Some(resp.value.category.id) && IsPublished(p, categories, now)
    ensures resp.Found? ==>
      (multiset(ListedPosts(resp.value.posts))
       == multiset(FilteredByPublished(PostsInCategory(posts, resp.value.category.id), PostOfPost, categories, now)))
    ensures resp.Found? ==> SortedByPubDateDesc(resp.value.posts, PostOfRow)
  {
    match FindFirst(categories, (c: Category) => c.slug == slug && c.isPublished)
    case None => NotFound
    case Some(c) =>
      var all := AnnotatedNewestFirst(PostsInCategory(posts, c.id), comments);
      FilteredByPublishedKeepsOrder(all, PostOfRow, categories, now);
      ListedAfterFilter(all, categories, now);
      ListedPostsOfFiltered(all, categories, now);
      FilteredByPublishedPermutation(ListedPosts(all), PostsInCategory(posts, c.id), PostOfPost, categories, now);
      Found(CategoryPage(c, FilteredByPublished(all, PostOfRow, categories, now)))
  }

  /**
   * `profile_username`: not found for an unknown user; the owner sees all of
   * their posts, anyone else only those that are publicly visible.
   */
  function ProfileUsername(users: set<UserId>, categories: seq<Category>, posts: seq<Post>,
                           comments: seq<Comment>, username: UserId, viewer: Option<UserId>,
                           now: int): (resp: Response<seq<AnnotatedPost>>)
    ensures resp.Found? || resp.NotFound?
    ensures resp.NotFound? <==> username !in users
    ensures resp.Found? && viewer == Some(username) ==>
      forall p :: p in ListedPosts(resp.value) <==> p in posts && p.author == username
    ensures resp.Found? && viewer == Some(username) ==>
      multiset(ListedPosts(resp.value)) == multiset(PostsByAuthor(posts, username))
    ensures resp.Found? && viewer != Some(username) ==>
      (multiset(ListedPosts(resp.value))
       == multiset(FilteredByPublished(PostsByAuthor(posts, username), PostOfPost, categories, now)))
    ensures resp.Found? && viewer != Some(username) ==>
      forall p :: p in ListedPosts(resp.value) <==>
        p in posts && p.author == username && IsPublished(p, categories, now)
    ensures resp.Found? ==> SortedByPubDateDesc(resp.value, PostOfRow)
  {
    if username !in users then NotFound
    else
      var own := AnnotatedNewestFirst(PostsByAuthor(posts, username), comments);
      if viewer != Some(username) then
        FilteredByPublishedKeepsOrder(own, PostOfRow, categories, now);
        ListedAfterFilter(own, categories, now);
        ListedPostsOfFiltered(own, categories, now);
        FilteredByPublishedPermutation(ListedPosts(own), PostsByAuthor(posts, username), PostOfPost, categories, now);
        Found(FilteredByPublished(own, PostOfRow, categories, now))
      else
        Found(own)
  }

  /**
   * The lookup by primary key in the published posts: it finds the post with
   * that id when that post is publicly visible, and nothing when it is not.
   */
  function PublishedPost(posts: seq<Post>, categories: seq<Category>, postId: int, now: int): (r: Option<Post>)
    ensures r.Some? ==> r.value in posts && r.value.id == postId && IsPublished(r.value, categories, now)
    ensures forall p :: FindPost(posts, postId) == Some(p) && IsPublished(p, categories, now) ==> r == Some(p)
    ensures PostIdsUnique(posts) ==>
      (forall p :: p in posts && p.id == postId && !IsPublished(p, categories, now) ==> r.None?)
  {
    var found := FindPost(posts, postId);
    var r := FindPost(FilteredByPublished(posts, PostOfPost, categories, now), postId);
    if found.Some? && IsPublished(found.value, categories, now) then
      FindPostInPublished(posts, categories, postId, now);
      r
    else
      r
  }

  datatype DetailPage = DetailPage(post: Post, comments: seq<Comment>)

  /**
   * `post_detail`: not found for an unknown id; the author gets the post
   * whatever its flags and date; anyone else gets it only if it is publicly
   * visible, and otherwise not found.
   */
  function PostDetail(posts: seq<Post>, categories: seq<Category>, comments: seq<Comment>,
                      postId: int, viewer: Option<UserId>, now: int): (resp: Response<DetailPage>)
    ensures resp.Found? || resp.NotFound?
    ensures FindPost(posts, postId).None? ==> resp.NotFound?
    ensures resp.Found? ==>
      resp.value.post in posts && resp.value.post.id == postId
      && (viewer == Some(resp.value.post.author) || IsPublished(resp.value.post, categories, now))
      && resp.value.comments == CommentsOn(comments, postId)
    ensures forall p ::
      (FindPost(posts, postId) == Some(p) && (viewer == Some(p.author) || IsPublished(p, categories, now)))
      ==> resp == Found(DetailPage(p, CommentsOn(comments, postId)))
    ensures PostIdsUnique(posts) ==>
      forall p :: (p in posts && p.id == postId && viewer != Some(p.author)
                   && !IsPublished(p, categories, now)) ==> resp.NotFound?
  {
    match FindPost(posts, postId)
    case None => NotFound
    case Some(p) =>
      if viewer != Some(p.author) then
        match PublishedPost(posts, categories, postId, now)
        case None => NotFound
        case Some(q) => Found(DetailPage(q, CommentsOn(comments, q.id)))
      else
        Found(DetailPage(p, CommentsOn(comments, p.id)))
  }

  /** The fields a post form submits; the author is not one of them. */
  datatype PostForm = PostForm(
    title: string, text: string, pubDate: int, image: string,
    location: Option<int>, category: Option<int>, isPublished: bool)

  datatype CommentForm = CommentForm(text: string)

  /**
   * `PostCreateView.form_valid`: the requester becomes the author and the post
   * is saved under a fresh id; the browser is then sent to the post's
   * canonical page, the author's profile.
   */
  method PostCreateFormValid(store: Store, requester: UserId, form: PostForm, now: int)
    returns (post: Post, next: Route)
    requires store.Valid()
    requires requester in store.users
    requires form.category.Some? ==> CategoryExists(store.categories, form.category.value)
    requires form.location.Some? ==> LocationExists(store.locations, form.location.value)
    modifies store
    ensures store.Valid()
    ensures post.author == requester
    ensures post == Post(post.id, form.title, form.text, form.pubDate, form.image,
                         requester, form.location, form.category, form.isPublished, now)
    ensures forall q :: q in old(store.posts) ==> q.id != post.id
    ensures store.posts == old(store.posts) + [post]
    ensures store.users == old(store.users) && store.categories == old(store.categories)
    ensures store.locations == old(store.locations) && store.comments == old(store.comments)
    ensures next == Profile(requester)
  {
    var id := FreshKey(store.posts, (p: Post) => p.id);
    post := Post(id, form.title, form.text, form.pubDate, form.image,
                 requester, form.location, form.category, form.isPublished, now);
    store.InsertPost(post);
    next := AbsoluteUrl(post);
  }

  /**
   * `CommentCreateView.form_valid`: the requester becomes the author and the
   * post found by `CommentMixin.dispatch` becomes the comment's post; that
   * post's comment count goes up by one, and the browser is sent to its
   * detail page.
   */
  method CommentCreateFormValid(store: Store, view: CommentView, requester: UserId,
                                form: CommentForm, now: int) returns (comment: Comment, next: Route)
    requires store.Valid()
    requires requester in store.users
    requires view.curPost.Some? && view.curPost.value in store.posts
    modifies store
    ensures store.Valid()
    ensures comment == Comment(comment.id, form.text, view.curPost.value.id, requester, now)
    ensures forall d :: d in old(store.comments) ==> d.id != comment.id
    ensures store.comments == old(store.comments) + [comment]
    ensures store.users == old(store.users) && store.categories == old(store.categories)
    ensures store.locations == old(store.locations) && store.posts == old(store.posts)
    ensures CommentCount(store.comments, comment.post) == CommentCount(old(store.comments), comment.post) + 1
    ensures next == Route.PostDetail(view.curPost.value.id)
  {
    var id := FreshKey(store.comments, (c: Comment) => c.id);
    comment := Comment(id, form.text, view.curPost.value.id, requester, now);
    CommentCountAfterComment(store.comments, comment, comment.post);
    store.InsertComment(comment);
    next := view.SuccessUrl();
  }

  /** `PostUpdateView.get_success_url`: the detail page of the edited post. */
  function PostUpdateSuccessUrl(p: Post): Route
  {
    Route.PostDetail(p.id)
  }

  /**
   * After a permitted edit the author is sent to a detail page that shows them
   * the post, whatever its flags and date.
   */
  lemma UpdatedPostShownToAuthor(posts: seq<Post>, categories: seq<Category>, comments: seq<Comment>,
                                 postId: int, requester: Option<UserId>, now: int)
    requires PostAccess(posts, postId, requester).Found?
    ensures var p := PostAccess(posts, postId, requester).value;
      PostUpdateSuccessUrl(p) == Route.PostDetail(postId)
      && PostDetail(posts, categories, comments, postId, requester, now) == Found(DetailPage(p, CommentsOn(comments, postId)))
  {
  }

  /**
   * A refused edit sends the requester to the post's detail page; that page
   * shows the post to them exactly when it is publicly visible.
   */
  lemma RefusedEditLandsOnDetail(posts: seq<Post>, categories: seq<Category>, comments: seq<Comment>,
                                 postId: int, requester: Option<UserId>, now: int)
    requires PostIdsUnique(posts)
    requires PostAccess(posts, postId, requester).Redirect?
    ensures PostAccess(posts, postId, requester).route == Route.PostDetail(postId)
    ensures var p := FindPost(posts, postId).value;
      PostDetail(posts, categories, comments, postId, requester, now).Found? <==> IsPublished(p, categories, now)
  {
  }

  /** The page a new post redirects to, its author's profile, lists it to its author. */
  lemma CreatedPostListedOnProfile(users: set<UserId>, categories: seq<Category>, posts: seq<Post>,
                                   comments: seq<Comment>, p: Post, now: int)
    requires p in posts && p.author in users
    ensures AbsoluteUrl(p).Profile?
    ensures var page := ProfileUsername(users, categories, posts, comments, AbsoluteUrl(p).user, Some(p.author), now);
      page.Found? && p in ListedPosts(page.value)
  {
  }
}
