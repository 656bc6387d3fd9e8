# Blogicum post visibility and ownership policy in Dafny

This project models the post visibility and ownership policy of the Blogicum
blog, a Django application. Users write posts, optionally filed under a category and a
location and possibly dated in the future, and comment on posts. The model covers:

- the published-posts filter: a post is publicly visible when it is published,
  its category is published, and its publication date is not after the
  request time;
- which posts each listing and the detail page show to which viewer;
- who may edit or delete a post or a comment, and where a refused or
  successful change redirects to;
- the records and their foreign-key delete rules, kept in a `Store` class
  whose methods remove rows or set references to null.

Modules, one per source file: `Models` (models.py), `Utils` (utils.py),
`PostsUtils` (posts_utils.py), `Mixin` (mixin.py), `Views` (views.py).
Helper modules: `Wrappers` (Option), `Seqs` (order-preserving filter,
first-match lookup, page split), and `Routes` (named routes and request
outcomes as values).

Conventions:
- Users are integer ids. Usernames are unique, so the profile route carries
  the user id.
- An anonymous request has viewer `None`.
- Wall-clock time is the parameter `now`.
- Query sets are sequences. The filter works on any row type through a
  projection `postOf`, so the model can filter annotated rows as the views do.
- The model follows the code as written, including two points one might not expect:
  - A post with no category is never publicly visible. The filter on
    `category__is_published` is a join across the nullable foreign key.
  - The index and category listings filter the author's own posts too. Only
    the profile page and the detail page let the author see their own hidden posts.

## Model

| member | source | states |
|---|---|---|
| `Models.CategoryStr` | blogicum/blog/models.py:30-31 | the string form is a prefix of the title, at most the limit long: the whole title when it fits, exactly the limit long when it does not |
| `Models.LocationStr` | blogicum/blog/models.py:44-45 | the same for a location's name: a prefix, the whole name when it fits, exactly the limit long otherwise |
| `Models.PostStr` | blogicum/blog/models.py:99-100 | the same for a post's title: a prefix, the whole title when it fits, exactly the limit long otherwise |
| `Models.CommentStr` | blogicum/blog/models.py:123-124 | the same for a comment's text: a prefix, the whole text when it fits, exactly the limit long otherwise |
| `Models.PostsInCategory` | blogicum/blog/models.py:82-88 | a category's posts (the reverse relation `category.posts`): in order, exactly the posts whose category is that one |
| `Models.PostsByAuthor` | blogicum/blog/models.py:68-73 | an author's posts (the reverse relation `profile.posts`): in order, exactly the posts written by that user |
| `Models.OrderByPubDateDesc` | blogicum/blog/models.py:91 | the default ordering: the result is sorted by non-increasing publication date and is a permutation of the input |
| `Models.ClearCategory` | blogicum/blog/models.py:82-88 | SET_NULL: every post is kept in place; a post that referenced the category now has none; all its other fields are unchanged |
| `Models.ClearLocation` | blogicum/blog/models.py:74-81 | the same for a deleted location |
| `Models.Store.InsertPost` | blogicum/blog/models.py:48-88 | saving a post whose author exists and whose category and location exist or are null keeps the store consistent |
| `Models.Store.InsertComment` | blogicum/blog/models.py:103-117 | saving a comment whose author and post exist keeps the store consistent |
| `Models.Store.DeleteUser` | blogicum/blog/models.py:68-117 | CASCADE: all of the user's posts and comments are gone, and so are the comments on their posts; every other row survives in order; keys and references stay consistent |
| `Models.Store.DeletePost` | blogicum/blog/models.py:107-112 | CASCADE: the post and exactly the comments on it are removed; nothing else changes |
| `Models.Store.DeleteComment` | blogicum/blog/views.py:175-176 | deleting a comment removes that row and nothing else |
| `Models.Store.DeleteCategory` | blogicum/blog/models.py:82-88 | the category row is removed, its posts stay with their category set to null, and the store stays consistent |
| `Models.Store.DeleteLocation` | blogicum/blog/models.py:74-81 | the same for a location |
| `Utils.FilteredByPublished` | blogicum/blog/utils.py:6-12 | a kept row is published, has a category that exists and is published, and is not dated after `now`; every input row meeting all three is kept; the result is a subsequence of the input, so input order is kept |
| `Utils.FilteredByPublishedIdempotent` | blogicum/blog/utils.py:6-12 | filtering twice with the same `now` equals filtering once |
| `Utils.FilteredByPublishedKeepsOrder` | blogicum/blog/utils.py:6-12 | filtering a newest-first list leaves it newest-first |
| `Utils.FilteredByPublishedPermutation` | blogicum/blog/utils.py:6-12 | the filter respects permutation: inputs with the same multiset give outputs with the same multiset |
| `Utils.ListedPostsOfFiltered` | blogicum/blog/utils.py:6-12 | filtering annotated rows and then dropping the counts equals filtering the bare posts |
| `Utils.FindPostInPublished` | blogicum/blog/views.py:68-72 | looking an id up among the published posts finds the same post as among all posts when that post is visible |
| `Utils.CommentsOn` | blogicum/blog/views.py:75 | a post's comments are exactly the stored comments that reference it, in stored order |
| `Utils.PostsAnnotate` | blogicum/blog/utils.py:15-18 | the same posts in the same order, each with the number of comments on it |
| `Utils.CommentCountAfterComment` | blogicum/blog/utils.py:15-18 | a new comment raises its own post's count by one and leaves every other post's count unchanged |
| `Utils.PostsPagination` | blogicum/blog/utils.py:21-26 | every page has at most 10 rows, every page but the last has exactly 10, and the pages concatenate to the input |
| `PostsUtils.FilteredByPublished` | blogicum/blog/posts_utils.py:8-11 | keeps exactly the rows whose post is published, has a published category and is not dated after `now` |
| `PostsUtils.SameFilterAsUtils` | blogicum/blog/posts_utils.py:8-11 | the two copies of the filter return the same sequence |
| `PostsUtils.FilteredByPublishedOrderAndIdempotence` | blogicum/blog/posts_utils.py:8-11 | this copy preserves input order and is idempotent |
| `PostsUtils.AnnotateCommutesWithOrder` | blogicum/blog/posts_utils.py:14-21 | annotating and then ordering equals ordering and then annotating |
| `PostsUtils.PostsAnnotate` | blogicum/blog/posts_utils.py:14-21 | the rows are sorted by non-increasing publication date, their posts are a permutation of the input, and each count is the number of comments on that post |
| `PostsUtils.PostsPagination` | blogicum/blog/posts_utils.py:24-29 | every page has at most `QUANTITY_PER_PAGE` rows, all but the last exactly that many, and the pages concatenate to the input |
| `Mixin.TestFunc` | blogicum/blog/mixin.py:12-13 | access is allowed iff the requester is logged in and is the object's author |
| `Mixin.PostAccess` | blogicum/blog/mixin.py:16-23 | post edit/delete: not found for an unknown id; the author gets the post; anyone else, anonymous included, is redirected to that post's detail page and never gets an error |
| `Mixin.PostDeleteRedirectsToOwnProfile` | blogicum/blog/mixin.py:25-26 | after a permitted delete the target is the requester's own profile |
| `Mixin.CommentAccess` | blogicum/blog/mixin.py:34-43 | comment views: an unknown post id is not found whoever asks, because that check runs before the login and author checks; a granted change is for the requested comment and the requester is its author |
| `Mixin.CommentView.Dispatch` | blogicum/blog/mixin.py:41-47 | stores the URL's post, answers as `CommentAccess` does, and then the success target is that post's detail page |
| `Mixin.CommentView.ChangeAccess` | blogicum/blog/mixin.py:11-13 | a comment change is granted iff the comment exists and the requester is its author; a missing comment is not found |
| `Views.AnnotatedNewestFirst` | blogicum/blog/views.py:23 | annotate then order: the rows are newest first and list the given posts, each exactly as often as it occurs in the input (a permutation), each with its comment count |
| `Views.Index` | blogicum/blog/views.py:46-56 | lists the publicly visible posts, each exactly once per occurrence (a permutation of the published filter of all posts), newest first, with comment counts |
| `Views.CategoryPosts` | blogicum/blog/views.py:80-97 | not found iff no published category has the slug; otherwise lists the visible posts of that category, a permutation of the published filter of the category's posts, newest first |
| `Views.ProfileUsername` | blogicum/blog/views.py:18-30 | not found iff the user does not exist; the owner sees a permutation of all of their posts whatever their flags, dates or category; anyone else sees a permutation of the published filter of the owner's posts; newest first |
| `Views.PublishedPost` | blogicum/blog/views.py:68-72 | the lookup among published posts returns only visible posts with that id, returns the post when it is visible, and returns nothing when it is hidden |
| `Views.PostDetail` | blogicum/blog/views.py:59-77 | not found for an unknown id; the author gets the post whatever its flags and date; anyone else gets it iff it is publicly visible, otherwise not found; the page carries the post's comments |
| `Views.PostCreateFormValid` | blogicum/blog/views.py:105-107 | the new post's author is the requester, its other fields come from the form, its id is fresh, the store stays consistent, and the redirect goes to the requester's profile |
| `Views.CommentCreateFormValid` | blogicum/blog/views.py:147-150 | the new comment's author is the requester and its post is the URL's post; that post's comment count rises by one; the redirect goes to that post's detail page |
| `Views.UpdatedPostShownToAuthor` | blogicum/blog/views.py:125-126 | after a permitted edit the target is the post's detail page, and that page shows the post to its author |
| `Views.RefusedEditLandsOnDetail` | blogicum/blog/mixin.py:22-23 | a refused edit redirects to the post's detail page, and that page shows the post to the refused requester iff it is publicly visible |
| `Views.CreatedPostListedOnProfile` | blogicum/blog/models.py:95-97 | a post's canonical URL is its author's profile, and that profile lists the post to its author |

## Left out

- Template rendering and `reverse`/`redirect` URL strings: routes are datatype values.
- URL resolution. The edit and delete routes capture `pk`, but the post views look up `post_id`. The model looks the post up by its id as intended.
- Paginator handling of invalid or out-of-range page numbers: only the split into pages is modelled.
- `select_related` has no effect on results and is not modelled. SQL `Count` is modelled as the number of referencing comments.
- `edit_profile_username` (saving the profile form): users are ids only.
- Saving the form of an edited post or comment (UpdateView): only the access check and the redirect target are modelled.
- Image upload and storage: the image is an opaque string.
- The import-time `timezone.now()` default of `pub_date`: the publication date always comes from the form.
- `NAME_LENGTH_LIMIT`, `QUANTITY_PER_PAGE` and the comment ordering of `CreatedAt.Meta` are defined in files this model does not include. The first two are parameters; comments stay in stored order.
- The framework's default refusal for comment views (403 or login redirect) is the single outcome `Denied`.
- Models.OrderByPubDateDesc: posts with equal dates keep their input order. The database leaves their order unspecified.
- Views.PostCreateFormValid, Views.CommentCreateFormValid: the new id is one more than the largest id present, and at least 1. The database sequence may pick a larger one; only freshness matters here.
- Views.PostDetail: the not-found promise for a hidden post holds when post ids are unique, which the primary key guarantees; it is stated under that condition.
- Models.Store.Valid states key uniqueness as "rows with the same key are the same row". Exact duplicate rows cannot occur in the database and do not affect the policy.
- Concurrency, transactions and the authentication subsystem are framework concerns.
