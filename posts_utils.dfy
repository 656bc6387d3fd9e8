/**
 * The second copy of the query helpers. Its visibility filter is written here
 * independently and proved equal to the one in `Utils`; its annotation also
 * orders the posts newest first; its page size is a parameter.
 */
module PostsUtils {
  import opened Seqs
  import opened Models
  import Utils

  /** `posts_filtered_by_published`, built from the last row backwards. */
  function FilteredByPublished<R(!new)>(rows: seq<R>, postOf: R -> Post, categories: seq<Category>, now: int): (r: seq<R>)
    ensures forall x :: x in r <==> x in rows && Utils.IsPublished(postOf(x), categories, now)
    decreases |rows|
  {
    if rows == [] then []
    else
      var init := rows[..|rows| - 1];
      var last := rows[|rows| - 1];
      assert rows == init + [last];
      var kept := FilteredByPublished(init, postOf, categories, now);
      if Utils.IsPublished(postOf(last), categories, now) then kept + [last] else kept
  }

  /** Both copies of the filter return the same rows in the same order. */
  lemma {:induction false} SameFilterAsUtils<R(!new)>(rows: seq<R>, postOf: R -> Post, categories: seq<Category>, now: int)
    ensures FilteredByPublished(rows, postOf, categories, now) == Utils.FilteredByPublished(rows, postOf, categories, now)
    decreases |rows|
  {
    if rows != [] {
      var init := rows[..|rows| - 1];
      var last := rows[|rows| - 1];
      assert rows == init + [last];
      SameFilterAsUtils(init, postOf, categories, now);
      FilterAppend(init, last, (x: R) => Utils.IsPublished(postOf(x), categories, now));
    }
  }

  /** This copy of the filter keeps input order and is idempotent. */
  lemma FilteredByPublishedOrderAndIdempotence<R(!new)>(rows: seq<R>, postOf: R -> Post, categories: seq<Category>, now: int)
    ensures IsSubsequence(FilteredByPublished(rows, postOf, categories, now), rows)
    ensures FilteredByPublished(FilteredByPublished(rows, postOf, categories, now), postOf, categories, now)
         == FilteredByPublished(rows, postOf, categories, now)
  {
    var once := FilteredByPublished(rows, postOf, categories, now);
    SameFilterAsUtils(rows, postOf, categories, now);
    SameFilterAsUtils(once, postOf, categories, now);
    Utils.FilteredByPublishedIdempotent(rows, postOf, categories, now);
  }

  /** Annotating a post list and prepending a post commute. */
  lemma AnnotateCons(x: Post, s: seq<Post>, comments: seq<Comment>)
    ensures Utils.PostsAnnotate([x] + s, comments)
         == [Utils.AnnotatedPost(x, Utils.CommentCount(comments, x.id))] + Utils.PostsAnnotate(s, comments)
  {
  }

  /** Annotating a newest-first post list gives a newest-first row list. */
  lemma AnnotateKeepsOrder(s: seq<Post>, comments: seq<Comment>)
    requires SortedByPubDateDesc(s, PostOfPost)
    ensures SortedByPubDateDesc(Utils.PostsAnnotate(s, comments), Utils.PostOfRow)
  {
  }

  /** Inserting into a sorted list commutes with annotating. */
  lemma {:induction false} AnnotateInsert(x: Post, s: seq<Post>, comments: seq<Comment>)
    requires SortedByPubDateDesc(s, PostOfPost)
    ensures SortedByPubDateDesc(Utils.PostsAnnotate(s, comments), Utils.PostOfRow)
    ensures Utils.PostsAnnotate(InsertByPubDate(x, s, PostOfPost), comments)
         == InsertByPubDate(Utils.AnnotatedPost(x, Utils.CommentCount(comments, x.id)),
                            Utils.PostsAnnotate(s, comments), Utils.PostOfRow)
    decreases |s|
  {
    AnnotateKeepsOrder(s, comments);
    var a := Utils.PostsAnnotate(s, comments);
    if s == [] || x.pubDate >= s[0].pubDate {
      AnnotateCons(x, s, comments);
    } else {
      assert s == [s[0]] + s[1..];
      AnnotateInsert(x, s[1..], comments);
      AnnotateCons(s[0], s[1..], comments);
      AnnotateCons(s[0], InsertByPubDate(x, s[1..], PostOfPost), comments);
    }
  }

  /** Annotating then ordering equals ordering then annotating. */
  lemma {:induction false} AnnotateCommutesWithOrder(posts: seq<Post>, comments: seq<Comment>)
    ensures OrderByPubDateDesc(Utils.PostsAnnotate(posts, comments), Utils.PostOfRow)
         == Utils.PostsAnnotate(OrderByPubDateDesc(posts, PostOfPost), comments)
    decreases |posts|
  {
    if posts != [] {
      assert posts == [posts[0]] + posts[1..];
      AnnotateCons(posts[0], posts[1..], comments);
      AnnotateCommutesWithOrder(posts[1..], comments);
      AnnotateInsert(posts[0], OrderByPubDateDesc(posts[1..], PostOfPost), comments);
    }
  }

  /**
   * `posts_annotate` of this copy: the posts newest first, a permutation of
   * the input, each row carrying the number of comments on its post.
   */
  function PostsAnnotate(posts: seq<Post>, comments: seq<Comment>): (r: seq<Utils.AnnotatedPost>)
    ensures SortedByPubDateDesc(r, Utils.PostOfRow)
    ensures multiset(Utils.ListedPosts(r)) == multiset(posts)
    ensures forall x :: x in r ==> x.commentCount == |Utils.CommentsOn(comments, x.post.id)|
  {
    var r := OrderByPubDateDesc(Utils.PostsAnnotate(posts, comments), Utils.PostOfRow);
    AnnotateCommutesWithOrder(posts, comments);
    Utils.ListedPostsOfAnnotate(OrderByPubDateDesc(posts, PostOfPost), comments);
    r
  }

  /** `posts_pagination` with a configurable page size. */
  function PostsPagination<R>(rows: seq<R>, quantityPerPage: nat): (pages: seq<seq<R>>)
    requires quantityPerPage > 0
    ensures |pages| >= 1
    ensures forall k :: 0 <= k < |pages| ==> |pages[k]| <= quantityPerPage
    ensures forall k :: 0 <= k < |pages| - 1 ==> |pages[k]| == quantityPerPage
    ensures Flatten(pages) == rows
  {
    Chunks(rows, quantityPerPage)
  }
}
