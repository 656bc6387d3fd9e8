/**
 * The stored records of the blog (categories, locations, posts, comments),
 * their string forms, the default post ordering, and a store whose delete
 * operations apply the foreign-key rules: deleting a user cascades to their
 * posts and comments, deleting a post cascades to its comments, deleting a
 * category or a location sets the reference on its posts to null.
 */
module Models {
  import opened Wrappers
  import opened Seqs
  import opened Routes

  datatype Category = Category(
    id: int, title: string, description: string, slug: string,
    isPublished: bool, createdAt: int)

  datatype Location = Location(id: int, name: string, isPublished: bool, createdAt: int)

  /** `image` is the stored file name, empty when no image was uploaded. */
  datatype Post = Post(
    id: int, title: string, text: string, pubDate: int, image: string,
    author: UserId, location: Option<int>, category: Option<int>,
    isPublished: bool, createdAt: int)

  datatype Comment = Comment(id: int, text: string, post: int, author: UserId, createdAt: int)

  /** Python's `s[:limit]` for a non-negative limit. */
  function Truncate(s: string, limit: nat): (r: string)
    ensures r <= s
    ensures |r| == if |s| < limit then |s| else limit
  {
    if |s| <= limit then s else s[..limit]
  }

  function CategoryStr(c: Category, limit: nat): (r: string)
    ensures r <= c.title && |r| <= limit
    ensures |c.title| <= limit ==> r == c.title
    ensures |c.title| > limit ==> |r| == limit
  {
    Truncate(c.title, limit)
  }

  function LocationStr(l: Location, limit: nat): (r: string)
    ensures r <= l.name && |r| <= limit
    ensures |l.name| <= limit ==> r == l.name
    ensures |l.name| > limit ==> |r| == limit
  {
    Truncate(l.name, limit)
  }

  function PostStr(p: Post, limit: nat): (r: string)
    ensures r <= p.title && |r| <= limit
    ensures |p.title| <= limit ==> r == p.title
    ensures |p.title| > limit ==> |r| == limit
  {
    Truncate(p.title, limit)
  }

  function CommentStr(c: Comment, limit: nat): (r: string)
    ensures r <= c.text && |r| <= limit
    ensures |c.text| <= limit ==> r == c.text
    ensures |c.text| > limit ==> |r| == limit
  {
    Truncate(c.text, limit)
  }

  /** The canonical page of a post is its author's profile. */
  function AbsoluteUrl(p: Post): Route
  {
    Profile(p.author)
  }

  // Lookups by primary key.

  function FindPost(posts: seq<Post>, id: int): (r: Option<Post>)
    ensures r.Some? ==> r.value in posts && r.value.id == id
    ensures r.None? <==> forall p :: p in posts ==> p.id != id
  {
    FindFirst(posts, (p: Post) => p.id == id)
  }

  function FindCategory(categories: seq<Category>, id: int): (r: Option<Category>)
    ensures r.Some? ==> r.value in categories && r.value.id == id
    ensures r.None? <==> forall c :: c in categories ==> c.id != id
  {
    FindFirst(categories, (c: Category) => c.id == id)
  }

  function FindComment(comments: seq<Comment>, id: int): (r: Option<Comment>)
    ensures r.Some? ==> r.value in comments && r.value.id == id
    ensures r.None? <==> forall c :: c in comments ==> c.id != id
  {
    FindFirst(comments, (c: Comment) => c.id == id)
  }

  // Default ordering of posts: newest publication date first.

  ghost predicate SortedByPubDateDesc<R>(rows: seq<R>, postOf: R -> Post)
  {
    forall i, j :: 0 <= i < j < |rows| ==> postOf(rows[i]).pubDate >= postOf(rows[j]).pubDate
  }

  /** Inserts `x` before the first row that is not newer than it. */
  function InsertByPubDate<R>(x: R, rows: seq<R>, postOf: R -> Post): (r: seq<R>)
    requires SortedByPubDateDesc(rows, postOf)
    ensures SortedByPubDateDesc(r, postOf)
    ensures multiset(r) == multiset(rows) + multiset{x}
    decreases |rows|
  {
    if rows == [] || postOf(x).pubDate >= postOf(rows[0]).pubDate then
      [x] + rows
    else
      var t := InsertByPubDate(x, rows[1..], postOf);
      assert rows == [rows[0]] + rows[1..];
      forall j | 0 <= j < |t|
        ensures postOf(rows[0]).pubDate >= postOf(t[j]).pubDate
      {
        assert t[j] in multiset(t);
        if t[j] != x {
          assert t[j] in rows[1..];
        }
      }
      [rows[0]] + t
  }

  /** `order_by('-pub_date')`: the same rows, newest first. */
  function OrderByPubDateDesc<R>(rows: seq<R>, postOf: R -> Post): (r: seq<R>)
    ensures SortedByPubDateDesc(r, postOf)
    ensures multiset(r) == multiset(rows)
    decreases |rows|
  {
    if rows == [] then []
    else
      assert rows == [rows[0]] + rows[1..];
      InsertByPubDate(rows[0], OrderByPubDateDesc(rows[1..], postOf), postOf)
  }

  function PostOfPost(p: Post): Post { p }

  // Reverse relations of the foreign keys.

  /** `category.posts`: the posts filed under the category, in stored order. */
  function PostsInCategory(posts: seq<Post>, id: int): (r: seq<Post>)
    ensures forall p :: p in r <==> p in posts && p.category == Some(id)
    ensures IsSubsequence(r, posts)
  {
    Filter(posts, (p: Post) => p.category == Some(id))
  }

  /** `user.posts`: the posts written by the user, in stored order. */
  function PostsByAuthor(posts: seq<Post>, u: UserId): (r: seq<Post>)
    ensures forall p :: p in r <==> p in posts && p.author == u
    ensures IsSubsequence(r, posts)
  {
    Filter(posts, (p: Post) => p.author == u)
  }

  // Deletion rules of the foreign keys.

  /** Posts of a deleted category keep existing with their category set to null. */
  function ClearCategory(posts: seq<Post>, id: int): (r: seq<Post>)
    ensures |r| == |posts|
    ensures forall i :: 0 <= i < |r| ==>
      r[i] == posts[i].(category := if posts[i].category == Some(id) then None else posts[i].category)
    ensures forall p :: p in r ==> p.category != Some(id)
  {
    seq(|posts|, i requires 0 <= i < |posts| =>
      if posts[i].category == Some(id) then posts[i].(category := None) else posts[i])
  }

  /** Posts of a deleted location keep existing with their location set to null. */
  function ClearLocation(posts: seq<Post>, id: int): (r: seq<Post>)
    ensures |r| == |posts|
    ensures forall i :: 0 <= i < |r| ==>
      r[i] == posts[i].(location := if posts[i].location == Some(id) then None else posts[i].location)
    ensures forall p :: p in r ==> p.location != Some(id)
  {
    seq(|posts|, i requires 0 <= i < |posts| =>
      if posts[i].location == Some(id) then posts[i].(location := None) else posts[i])
  }

  /** No two different post rows share a primary key. */
  ghost predicate PostIdsUnique(posts: seq<Post>)
  {
    forall p, q :: p in posts && q in posts && p.id == q.id ==> p == q
  }

  ghost predicate PostExists(posts: seq<Post>, id: int)
  {
    exists p :: p in posts && p.id == id
  }

  ghost predicate CategoryExists(categories: seq<Category>, id: int)
  {
    exists c :: c in categories && c.id == id
  }

  ghost predicate LocationExists(locations: seq<Location>, id: int)
  {
    exists l :: l in locations && l.id == id
  }

  /** The database tables, with primary keys and foreign keys kept consistent. */
  class Store {
    var users: set<UserId>
    var categories: seq<Category>
    var locations: seq<Location>
    var posts: seq<Post>
    var comments: seq<Comment>

    ghost predicate Valid()
      reads this
    {
      // primary keys and the category slug are unique
      && (forall c, d :: c in categories && d in categories && c.id == d.id ==> c == d)
      && (forall c, d :: c in categories && d in categories && c.slug == d.slug ==> c == d)
      && (forall l, m :: l in locations && m in locations && l.id == m.id ==> l == m)
      && PostIdsUnique(posts)
      && (forall c, d :: c in comments && d in comments && c.id == d.id ==> c == d)
      // every post has an author; its category and location, when set, exist
      && (forall p :: p in posts ==> p.author in users)
      && (forall p :: p in posts && p.category.Some? ==> CategoryExists(categories, p.category.value))
      && (forall p :: p in posts && p.location.Some? ==> LocationExists(locations, p.location.value))
      // every comment has an author and a post
      && (forall c :: c in comments ==> c.author in users && PostExists(posts, c.post))
    }

    constructor ()
      ensures Valid()
      ensures users == {} && categories == [] && locations == [] && posts == [] && comments == []
    {
      users, categories, locations, posts, comments := {}, [], [], [], [];
    }

    /** Adds a new post row; the caller has checked its references. */
    method InsertPost(p: Post)
      requires Valid()
      requires forall q :: q in posts ==> q.id != p.id
      requires p.author in users
      requires p.category.Some? ==> CategoryExists(categories, p.category.value)
      requires p.location.Some? ==> LocationExists(locations, p.location.value)
      modifies this
      ensures Valid()
      ensures posts == old(posts) + [p]
      ensures users == old(users) && categories == old(categories)
      ensures locations == old(locations) && comments == old(comments)
    {
      posts := posts + [p];
      forall c | c in comments ensures PostExists(posts, c.post) {
        var q :| q in old(posts) && q.id == c.post;
        assert q in posts;
      }
    }

    /** Adds a new comment row; the caller has checked its references. */
    method InsertComment(c: Comment)
      requires Valid()
      requires forall d :: d in comments ==> d.id != c.id
      requires c.author in users && PostExists(posts, c.post)
      modifies this
      ensures Valid()
      ensures comments == old(comments) + [c]
      ensures users == old(users) && categories == old(categories)
      ensures locations == old(locations) && posts == old(posts)
    {
      comments := comments + [c];
    }

    /**
     * Deleting a user deletes their posts (CASCADE), the comments on those
     * posts (CASCADE from the post) and their own comments (CASCADE).
     */
    method DeleteUser(u: UserId)
      requires Valid()
      modifies this
      ensures Valid()
      ensures users == old(users) - {u}
      ensures posts == Filter(old(posts), (p: Post) => p.author != u)
      ensures comments == Filter(old(comments),
        (c: Comment) => c.author != u && c.post !in AuthoredPostIds(old(posts), u))
      ensures categories == old(categories) && locations == old(locations)
      ensures forall p :: p in posts <==> p in old(posts) && p.author != u
      ensures forall c :: c in comments <==>
        c in old(comments) && c.author != u && exists p :: p in posts && p.id == c.post
    {
      var gone := AuthoredPostIds(posts, u);
      ghost var oldPosts := posts;
      users := users - {u};
      posts := Filter(posts, (p: Post) => p.author != u);
      comments := Filter(comments, (c: Comment) => c.author != u && c.post !in gone);
      forall c | c in old(comments)
        ensures (c.post !in gone) <==> PostExists(posts, c.post)
      {
        var q :| q in oldPosts && q.id == c.post;
        if c.post !in gone {
          assert q.author != u;
          assert q in posts;
        } else {
          var g :| g in oldPosts && g.author == u && g.id == c.post;
          assert g == q;
        }
      }
    }

    /** Deleting a post deletes the comments on it (CASCADE) and nothing else. */
    method DeletePost(id: int)
      requires Valid()
      modifies this
      ensures Valid()
      ensures posts == Filter(old(posts), (p: Post) => p.id != id)
      ensures comments == Filter(old(comments), (c: Comment) => c.post != id)
      ensures users == old(users) && categories == old(categories) && locations == old(locations)
      ensures forall p :: p in posts <==> p in old(posts) && p.id != id
      ensures forall c :: c in comments <==> c in old(comments) && c.post != id
    {
      posts := Filter(posts, (p: Post) => p.id != id);
      comments := Filter(comments, (c: Comment) => c.post != id);
      forall c | c in comments ensures PostExists(posts, c.post) {
        var q :| q in old(posts) && q.id == c.post;
        assert q in posts;
      }
    }

    /** Deleting a comment removes that row only. */
    method DeleteComment(id: int)
      requires Valid()
      modifies this
      ensures Valid()
      ensures comments == Filter(old(comments), (c: Comment) => c.id != id)
      ensures users == old(users) && categories == old(categories)
      ensures locations == old(locations) && posts == old(posts)
      ensures forall c :: c in comments <==> c in old(comments) && c.id != id
    {
      comments := Filter(comments, (c: Comment) => c.id != id);
    }

    /** Deleting a category sets the category of its posts to null (SET_NULL). */
    method DeleteCategory(id: int)
      requires Valid()
      modifies this
      ensures Valid()
      ensures categories == Filter(old(categories), (c: Category) => c.id != id)
      ensures posts == ClearCategory(old(posts), id)
      ensures users == old(users) && locations == old(locations) && comments == old(comments)
    {
      ghost var oldPosts := posts;
      categories := Filter(categories, (c: Category) => c.id != id);
      posts := ClearCategory(posts, id);
      forall p | p in posts ensures p.author in users
        && (p.category.Some? ==> CategoryExists(categories, p.category.value))
        && (p.location.Some? ==> LocationExists(locations, p.location.value))
      {
        var i :| 0 <= i < |posts| && posts[i] == p;
        assert oldPosts[i] in oldPosts;
        if p.category.Some? {
          var c :| c in old(categories) && c.id == p.category.value;
          assert c in categories;
        }
      }
      forall p, q | p in posts && q in posts && p.id == q.id ensures p == q {
        var i :| 0 <= i < |posts| && posts[i] == p;
        var j :| 0 <= j < |posts| && posts[j] == q;
        assert oldPosts[i] in oldPosts && oldPosts[j] in oldPosts;
      }
      forall c | c in comments ensures PostExists(posts, c.post) {
        var q :| q in oldPosts && q.id == c.post;
        var i :| 0 <= i < |oldPosts| && oldPosts[i] == q;
        assert posts[i] in posts;
      }
    }

    /** Deleting a location sets the location of its posts to null (SET_NULL). */
    method DeleteLocation(id: int)
      requires Valid()
      modifies this
      ensures Valid()
      ensures locations == Filter(old(locations), (l: Location) => l.id != id)
      ensures posts == ClearLocation(old(posts), id)
      ensures users == old(users) && categories == old(categories) && comments == old(comments)
    {
      ghost var oldPosts := posts;
      locations := Filter(locations, (l: Location) => l.id != id);
      posts := ClearLocation(posts, id);
      forall p | p in posts ensures p.author in users
        && (p.category.Some? ==> CategoryExists(categories, p.category.value))
        && (p.location.Some? ==> LocationExists(locations, p.location.value))
      {
        var i :| 0 <= i < |posts| && posts[i] == p;
        assert oldPosts[i] in oldPosts;
        if p.location.Some? {
          var l :| l in old(locations) && l.id == p.location.value;
          assert l in locations;
        }
      }
      forall p, q | p in posts && q in posts && p.id == q.id ensures p == q {
        var i :| 0 <= i < |posts| && posts[i] == p;
        var j :| 0 <= j < |posts| && posts[j] == q;
        assert oldPosts[i] in oldPosts && oldPosts[j] in oldPosts;
      }
      forall c | c in comments ensures PostExists(posts, c.post) {
        var q :| q in oldPosts && q.id == c.post;
        var i :| 0 <= i < |oldPosts| && oldPosts[i] == q;
        assert posts[i] in posts;
      }
    }
  }

  /** Ids of the posts written by `u`. */
  function AuthoredPostIds(posts: seq<Post>, u: UserId): (ids: set<int>)
    ensures forall id :: id in ids <==> exists p :: p in posts && p.author == u && p.id == id
  {
    set p | p in posts && p.author == u :: p.id
  }
}
