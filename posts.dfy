/** The records the client keeps in its caches: posts as the list and
    detail endpoints return them, pages of an infinite list, comments, and
    a like-toggle result. */
module Posts {
  import opened Common

  /** The fields of a post that no callback of the client rewrites. */
  datatype PostFields = PostFields(
    username: string, categoryId: string, title: string, description: Option<string>,
    recommend1: string, recommend2: string, recommend3: string, createdAt: string)

  /** A post: `post_id`, `like_count` and `is_liked`, and everything else. */
  datatype Post = Post(postId: string, likeCount: int, isLiked: bool, fields: PostFields)

  /** One page of a list endpoint: `{ posts, last_evaluated_key }`. */
  datatype Page = Page(posts: seq<Post>, lastEvaluatedKey: Option<string>)

  /** What an infinite query caches: the pages in fetch order and the
      cursor each page was fetched with. */
  datatype InfiniteData = InfiniteData(pages: seq<Page>, pageParams: seq<Option<string>>)

  /** The body of the like-toggle response: `{ like_count, is_liked }`. */
  datatype LikeResult = LikeResult(likeCount: int, isLiked: bool)

  /** The second part of the feed key `['posts', selectedCategory]`: `null`
      stands for all posts, a category id for one category. */
  datatype FeedKey = AllPosts | Category(id: string)

  /** The post fields a create or update form submits. */
  datatype PostPayload = PostPayload(
    category: string, title: string, description: Option<string>,
    recommend1: string, recommend2: string, recommend3: string)

  /** The object the create handler passes to `mutateAsync`: the post
      fields and the store's `user`. */
  datatype CreateVariables = CreateVariables(username: Option<string>, post: PostPayload)

  /** The object the update handler passes to `mutateAsync`: the post
      fields and `postId`.  It has no `id` property. */
  datatype UpdateVariables = UpdateVariables(postId: string, post: PostPayload)

  datatype Comment = Comment(commentId: string, username: string, content: string, createdAt: string)

  /** Some page holds a post with this id. */
  predicate PagesContain(pages: seq<Page>, postId: string)
  {
    exists i, j :: 0 <= i < |pages| && 0 <= j < |pages[i].posts| && pages[i].posts[j].postId == postId
  }
}
