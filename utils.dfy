/**
 * The query helpers the views use: the public-visibility filter, the comment
 * count annotation and the page split with 10 posts per page.
 */
module Utils {
  import opened Wrappers
  import opened Seqs
  import opened Models

  /** A post row carrying the `comment_count` annotation. */
  datatype AnnotatedPost = AnnotatedPost(post: Post, commentCount: nat)

  function PostOfRow(a: AnnotatedPost): Post { a.post }

  /** The category row a post's nullable foreign key joins to, if any. */
  function CategoryOf(p: Post, categories: seq<Category>): Option<Category>
  {
    if p.category.None? then None else FindCategory(categories, p.category.value)
  }

  /**
   * The three conditions of the published-posts filter. The category condition
   * is a join across a nullable foreign key: a post without a category fails it.
   */
  predicate IsPublished(p: Post, categories: seq<Category>, now: int)
  {
    && p.isPublished
    && (match CategoryOf(p, categories)
        case Some(c) => c.isPublished
        case None => false)
    && p.pubDate <= now
  }

  /** `posts_filtered_by_published`, over any rows that carry a post. */
  function FilteredByPublished<R(!new)>(rows: seq<R>, postOf: R -> Post, categories: seq<Category>, now: int): (r: seq<R>)
    ensures forall x :: x in r ==> x in rows && IsPublished(postOf(x), categories, now)
    ensures forall x :: x in r ==> postOf(x).isPublished
    ensures forall x :: x in r ==>
      (postOf(x).category.Some? && CategoryOf(postOf(x), categories).Some?
       && CategoryOf(postOf(x), categories).value.isPublished)
    ensures forall x :: x in r ==> postOf(x).pubDate <= now
    ensures forall x :: x in rows && IsPublished(postOf(x), categories, now) ==> x in r
    ensures IsSubsequence(r, rows)
  {
    Filter(rows, (x: R) => IsPublished(postOf(x), categories, now))
  }

  /** Filtering twice with the same clock keeps the same rows as filtering once. */
  lemma FilteredByPublishedIdempotent<R(!new)>(rows: seq<R>, postOf: R -> Post, categories: seq<Category>, now: int)
    ensures FilteredByPublished(FilteredByPublished(rows, postOf, categories, now), postOf, categories, now)
         == FilteredByPublished(rows, postOf, categories, now)
  {
    FilterIdempotent(rows, (x: R) => IsPublished(postOf(x), categories, now));
  }

  /**
   * Looking a post up by id among the published posts finds the same post as
   * looking it up among all posts, when that post is publicly visible.
   */
  lemma FindPostInPublished(posts: seq<Post>, categories: seq<Category>, id: int, now: int)
    requires FindPost(posts, id).Some? && IsPublished(FindPost(posts, id).value, categories, now)
    ensures FindPost(FilteredByPublished(posts, PostOfPost, categories, now), id) == FindPost(posts, id)
  {
    FindInPublished(posts, PostOfPost, categories, now, (p: Post) => p.id == id);
  }

  /** The generic form of `FindPostInPublished`, for any lookup condition. */
  lemma FindInPublished<R(!new)>(rows: seq<R>, postOf: R -> Post, categories: seq<Category>, now: int, matches: R -> bool)
    requires FindFirst(rows, matches).Some? && IsPublished(postOf(FindFirst(rows, matches).value), categories, now)
    ensures FindFirst(FilteredByPublished(rows, postOf, categories, now), matches) == FindFirst(rows, matches)
  {
    FindFirstInFilter(rows, matches, (x: R) => IsPublished(postOf(x), categories, now));
  }

  /** Filtering a list that is newest-first gives a list that is newest-first. */
  lemma {:induction false} FilteredByPublishedKeepsOrder<R(!new)>(rows: seq<R>, postOf: R -> Post, categories: seq<Category>, now: int)
    requires SortedByPubDateDesc(rows, postOf)
    ensures SortedByPubDateDesc(FilteredByPublished(rows, postOf, categories, now), postOf)
    decreases |rows|
  {
    if rows != [] {
      var keep := (x: R) => IsPublished(postOf(x), categories, now);
      FilteredByPublishedKeepsOrder(rows[1..], postOf, categories, now);
      var tail := Filter(rows[1..], keep);
      assert Filter(rows, keep) == if keep(rows[0]) then [rows[0]] + tail else tail;
      forall x | x in tail ensures postOf(rows[0]).pubDate >= postOf(x).pubDate {
        var j :| 0 <= j < |rows[1..]| && rows[1..][j] == x;
        assert rows[j + 1] == x;
      }
    }
  }

  /** Filtering two permutations of the same rows gives permutations of the same rows. */
  lemma FilteredByPublishedPermutation<R(!new)>(a: seq<R>, b: seq<R>, postOf: R -> Post, categories: seq<Category>, now: int)
    requires multiset(a) == multiset(b)
    ensures multiset(FilteredByPublished(a, postOf, categories, now))
         == multiset(FilteredByPublished(b, postOf, categories, now))
  {
    FilterMultiset(a, (x: R) => IsPublished(postOf(x), categories, now));
    FilterMultiset(b, (x: R) => IsPublished(postOf(x), categories, now));
    assert forall x :: multiset(FilteredByPublished(a, postOf, categories, now))[x]
                    == multiset(FilteredByPublished(b, postOf, categories, now))[x];
  }

  /** `post.comments`: the comments whose post is `postId`, in stored order. */
  function CommentsOn(comments: seq<Comment>, postId: int): (r: seq<Comment>)
    ensures forall c :: c in r <==> c in comments && c.post == postId
    ensures IsSubsequence(r, comments)
  {
    Filter(comments, (c: Comment) => c.post == postId)
  }

  /** `Count('comments')` for one post. */
  function CommentCount(comments: seq<Comment>, postId: int): nat
  {
    |CommentsOn(comments, postId)|
  }

  /** A new comment adds one to the count of its own post and to no other. */
  lemma CommentCountAfterComment(comments: seq<Comment>, c: Comment, postId: int)
    ensures CommentCount(comments + [c], postId)
         == CommentCount(comments, postId) + (if c.post == postId then 1 else 0)
  {
    FilterAppend(comments, c, (d: Comment) => d.post == postId);
  }

  /** `posts_annotate`: the same posts in the same order, each with its comment count. */
  function PostsAnnotate(posts: seq<Post>, comments: seq<Comment>): (r: seq<AnnotatedPost>)
    ensures |r| == |posts|
    ensures forall i :: 0 <= i < |r| ==> r[i].post == posts[i]
    ensures forall i :: 0 <= i < |r| ==> r[i].commentCount == |CommentsOn(comments, posts[i].id)|
  {
    seq(|posts|, i requires 0 <= i < |posts| => AnnotatedPost(posts[i], CommentCount(comments, posts[i].id)))
  }

  /** The posts of a list of annotated rows. */
  function ListedPosts(rows: seq<AnnotatedPost>): (ps: seq<Post>)
    ensures |ps| == |rows|
    ensures forall i :: 0 <= i < |rows| ==> ps[i] == rows[i].post
    ensures forall p :: p in ps <==> exists x :: x in rows && x.post == p
  {
    seq(|rows|, i requires 0 <= i < |rows| => rows[i].post)
  }

  /** Annotating keeps exactly the posts it is given. */
  lemma ListedPostsOfAnnotate(posts: seq<Post>, comments: seq<Comment>)
    ensures ListedPosts(PostsAnnotate(posts, comments)) == posts
  {
  }

  /** Filtering annotated rows keeps the rows of exactly the posts that filtering the posts keeps. */
  lemma {:induction false} ListedPostsOfFiltered(rows: seq<AnnotatedPost>, categories: seq<Category>, now: int)
    ensures ListedPosts(FilteredByPublished(rows, PostOfRow, categories, now))
         == FilteredByPublished(ListedPosts(rows), PostOfPost, categories, now)
    decreases |rows|
  {
    if rows != [] {
      ListedPostsOfFiltered(rows[1..], categories, now);
      assert ListedPosts(rows)[0] == rows[0].post;
      assert ListedPosts(rows)[1..] == ListedPosts(rows[1..]);
      var tail := FilteredByPublished(rows[1..], PostOfRow, categories, now);
      if IsPublished(rows[0].post, categories, now) {
        assert ListedPosts([rows[0]] + tail) == [rows[0].post] + ListedPosts(tail);
      }
    }
  }

  const PageSize: nat := 10

  /** `posts_pagination`: pages of at most 10 rows that together are the rows. */
  function PostsPagination<R>(rows: seq<R>): (pages: seq<seq<R>>)
    ensures |pages| >= 1
    ensures forall k :: 0 <= k < |pages| ==> |pages[k]| <= PageSize
    ensures forall k :: 0 <= k < |pages| - 1 ==> |pages[k]| == PageSize
    ensures Flatten(pages) == rows
  {
    Chunks(rows, PageSize)
  }
}
