/** The cache synchroniser that runs after a successful like toggle: it
    copies the server's `like_count` and `is_liked` into the feed, the
    user's own posts, the user's liked posts and the post's detail entry,
    and adds or drops the post in the liked list.  Nothing is refetched. */
module LikeCache {
  import opened Common
  import opened Posts
  import opened QueryCache

  /** A post with the response's count and flag and every other field kept. */
  function WithLike(p: Post, res: LikeResult): (r: Post)
    ensures r.postId == p.postId && r.fields == p.fields
    ensures r.likeCount == res.likeCount && r.isLiked == res.isLiked
  {
    p.(likeCount := res.likeCount, isLiked := res.isLiked)
  }

  /** What the per-post mapping does to one post. */
  function Touch(p: Post, postId: string, res: LikeResult): Post
  {
    if p.postId == postId then WithLike(p, res) else p
  }

  /** The posts of one page with the matching post updated and the rest
      kept, in the same order. */
  function UpdatePosts(ps: seq<Post>, postId: string, res: LikeResult): (r: seq<Post>)
    ensures |r| == |ps|
    ensures forall i :: 0 <= i < |ps| && ps[i].postId == postId ==> r[i] == WithLike(ps[i], res)
    ensures forall i :: 0 <= i < |ps| && ps[i].postId != postId ==> r[i] == ps[i]
  {
    if ps == [] then [] else [Touch(ps[0], postId, res)] + UpdatePosts(ps[1..], postId, res)
  }

  /** Every page with its posts updated; cursors and page order are kept. */
  function UpdatePages(pages: seq<Page>, postId: string, res: LikeResult): (r: seq<Page>)
    ensures |r| == |pages|
    ensures forall i :: 0 <= i < |pages| ==>
      |r[i].posts| == |pages[i].posts| && r[i].lastEvaluatedKey == pages[i].lastEvaluatedKey
    ensures forall i, j :: 0 <= i < |pages| && 0 <= j < |pages[i].posts| ==>
      r[i].posts[j] == Touch(pages[i].posts[j], postId, res)
  {
    if pages == [] then []
    else [pages[0].(posts := UpdatePosts(pages[0].posts, postId, res))] + UpdatePages(pages[1..], postId, res)
  }

  /** The updater of the feed and own-posts caches: an absent entry stays
      absent (the updater returns `undefined`), a present one gets its pages
      updated and keeps its page parameters. */
  function UpdateView(prev: Option<InfiniteData>, postId: string, res: LikeResult): (r: Option<InfiniteData>)
    ensures r.Some? <==> prev.Some?
    ensures r.Some? ==> r.value.pageParams == prev.value.pageParams
    ensures r.Some? ==> r.value.pages == UpdatePages(prev.value.pages, postId, res)
  {
    match prev
    case None => None
    case Some(d) => Some(d.(pages := UpdatePages(d.pages, postId, res)))
  }

  /** Sending the same response twice leaves a view as sending it once. */
  lemma {:induction false} UpdatePagesIdempotent(pages: seq<Page>, postId: string, res: LikeResult)
    ensures UpdatePages(UpdatePages(pages, postId, res), postId, res) == UpdatePages(pages, postId, res)
  {
    var once := UpdatePages(pages, postId, res);
    var twice := UpdatePages(once, postId, res);
    forall i | 0 <= i < |pages|
      ensures twice[i] == once[i]
    {
      assert twice[i].posts == once[i].posts;
    }
  }

  /** The posts of one page without any post carrying this id, in order. */
  function RemovePosts(ps: seq<Post>, postId: string): (r: seq<Post>)
    ensures |r| <= |ps|
    ensures forall p :: p in r <==> p in ps && p.postId != postId
  {
    if ps == [] then []
    else if ps[0].postId == postId then RemovePosts(ps[1..], postId)
    else [ps[0]] + RemovePosts(ps[1..], postId)
  }

  /** Filtering a page that does not hold the post changes nothing. */
  lemma {:induction false} RemovePostsAbsent(ps: seq<Post>, postId: string)
    requires forall i :: 0 <= i < |ps| ==> ps[i].postId != postId
    ensures RemovePosts(ps, postId) == ps
  {
    if ps != [] {
      RemovePostsAbsent(ps[1..], postId);
    }
  }

  /** Filtering keeps the order of the remaining posts: it distributes over
      concatenation. */
  lemma {:induction false} RemovePostsAppend(a: seq<Post>, b: seq<Post>, postId: string)
    ensures RemovePosts(a + b, postId) == RemovePosts(a, postId) + RemovePosts(b, postId)
  {
    if a != [] {
      assert (a + b)[1..] == a[1..] + b;
      RemovePostsAppend(a[1..], b, postId);
    } else {
      assert a + b == b;
    }
  }

  /** Unliking twice is unliking once. */
  lemma {:induction false} RemovePostsIdempotent(ps: seq<Post>, postId: string)
    ensures RemovePosts(RemovePosts(ps, postId), postId) == RemovePosts(ps, postId)
  {
    var r := RemovePosts(ps, postId);
    forall i | 0 <= i < |r|
      ensures r[i].postId != postId
    {
      assert r[i] in r;
    }
    RemovePostsAbsent(r, postId);
  }

  /** Every page filtered; cursors and page order are kept. */
  function RemovePages(pages: seq<Page>, postId: string): (r: seq<Page>)
    ensures |r| == |pages|
    ensures forall i :: 0 <= i < |pages| ==>
      r[i].lastEvaluatedKey == pages[i].lastEvaluatedKey && r[i].posts == RemovePosts(pages[i].posts, postId)
    ensures !PagesContain(r, postId)
  {
    if pages == [] then []
    else
      var rest := RemovePages(pages[1..], postId);
      var r := [pages[0].(posts := RemovePosts(pages[0].posts, postId))] + rest;
      assert forall i, j :: 0 <= i < |r| && 0 <= j < |r[i].posts| ==> r[i].posts[j] in r[i].posts;
      r
  }

  /** The index `posts.find` stops at: the first post with the id. */
  function FirstMatch(ps: seq<Post>, postId: string): (r: Option<nat>)
    ensures r.None? <==> forall j :: 0 <= j < |ps| ==> ps[j].postId != postId
    ensures r.Some? ==> r.value < |ps| && ps[r.value].postId == postId
    ensures r.Some? ==> forall j :: 0 <= j < r.value ==> ps[j].postId != postId
  {
    if ps == [] then None
    else if ps[0].postId == postId then Some(0)
    else match FirstMatch(ps[1..], postId)
      case None => None
      case Some(k) => Some(k + 1)
  }

  /** `find` depends on the ids alone. */
  lemma {:induction false} FirstMatchSameIds(a: seq<Post>, b: seq<Post>, postId: string)
    requires |a| == |b|
    requires forall i :: 0 <= i < |a| ==> a[i].postId == b[i].postId
    ensures FirstMatch(a, postId) == FirstMatch(b, postId)
  {
    if a != [] {
      FirstMatchSameIds(a[1..], b[1..], postId);
    }
  }

  /** The first page whose `find` succeeds. */
  function FirstPage(pages: seq<Page>, postId: string): (r: Option<nat>)
    ensures r.None? ==> forall k :: 0 <= k < |pages| ==> FirstMatch(pages[k].posts, postId).None?
    ensures r.Some? ==> r.value < |pages| && FirstMatch(pages[r.value].posts, postId).Some?
    ensures r.Some? ==> forall k :: 0 <= k < r.value ==> FirstMatch(pages[k].posts, postId).None?
  {
    if pages == [] then None
    else if FirstMatch(pages[0].posts, postId).Some? then Some(0)
    else match FirstPage(pages[1..], postId)
      case None => None
      case Some(k) => Some(k + 1)
  }

  /** Some page holds the post exactly when some page's `find` succeeds. */
  lemma PagesContainIffFound(pages: seq<Page>, postId: string)
    ensures PagesContain(pages, postId) <==> FirstPage(pages, postId).Some?
  {
    if PagesContain(pages, postId) {
      var i, j :| 0 <= i < |pages| && 0 <= j < |pages[i].posts| && pages[i].posts[j].postId == postId;
      assert FirstMatch(pages[i].posts, postId).Some?;
    }
  }

  /** The post the own-posts search settles on: the first match in the
      first page that has one. */
  function FindInPages(pages: seq<Page>, postId: string): (r: Option<Post>)
    ensures r.None? <==> !PagesContain(pages, postId)
    ensures r.Some? ==> r.value.postId == postId
    ensures r.Some? ==> FirstPage(pages, postId).Some?
    ensures r.Some? ==> var i := FirstPage(pages, postId).value;
      r.value == pages[i].posts[FirstMatch(pages[i].posts, postId).value]
  {
    PagesContainIffFound(pages, postId);
    match FirstPage(pages, postId)
    case None => None
    case Some(i) => Some(pages[i].posts[FirstMatch(pages[i].posts, postId).value])
  }

  /** The post the liked list receives when it did not hold the post: the
      one found in the own-posts cache, with the response applied. */
  function PostToAdd(userPostsCache: Option<InfiniteData>, postId: string, res: LikeResult): (r: Option<Post>)
    ensures r.Some? <==> userPostsCache.Some? && PagesContain(userPostsCache.value.pages, postId)
    ensures r.Some? ==> r.value.postId == postId && r.value.likeCount == res.likeCount && r.value.isLiked == res.isLiked
    ensures r.Some? ==> r.value == WithLike(FindInPages(userPostsCache.value.pages, postId).value, res)
  {
    match userPostsCache
    case None => None
    case Some(d) =>
      match FindInPages(d.pages, postId)
      case None => None
      case Some(p) => Some(WithLike(p, res))
  }

  /** The search loop over the own-posts pages, leaving at the first page
      whose `find` succeeds. */
  method FindPostToAdd(userPostsCache: Option<InfiniteData>, postId: string, res: LikeResult)
    returns (postToAdd: Option<Post>)
    ensures postToAdd == PostToAdd(userPostsCache, postId, res)
  {
    postToAdd := None;
    if userPostsCache.Some? {
      var pages := userPostsCache.value.pages;
      var i := 0;
      while i < |pages|
        invariant 0 <= i <= |pages|
        invariant postToAdd.None?
        invariant forall k :: 0 <= k < i ==> FirstMatch(pages[k].posts, postId).None?
      {
        var found := FirstMatch(pages[i].posts, postId);
        if found.Some? {
          FirstPageAt(pages, postId, i);
          postToAdd := Some(WithLike(pages[i].posts[found.value], res));
          break;
        }
        i := i + 1;
      }
      PagesContainIffFound(pages, postId);
    }
  }

  /** The page the search stops at is the first page whose `find` succeeds. */
  lemma FirstPageAt(pages: seq<Page>, postId: string, i: nat)
    requires i < |pages| && FirstMatch(pages[i].posts, postId).Some?
    requires forall k :: 0 <= k < i ==> FirstMatch(pages[k].posts, postId).None?
    ensures FirstPage(pages, postId) == Some(i)
  {
  }

  /** `FirstPage` depends on where each page's `find` succeeds, and on
      nothing else. */
  lemma {:induction false} FirstPageSameMatches(a: seq<Page>, b: seq<Page>, postId: string)
    requires |a| == |b|
    requires forall k :: 0 <= k < |a| ==> FirstMatch(a[k].posts, postId) == FirstMatch(b[k].posts, postId)
    ensures FirstPage(a, postId) == FirstPage(b, postId)
  {
    if a != [] {
      FirstPageSameMatches(a[1..], b[1..], postId);
    }
  }

  /** Searching the own-posts pages after they received the response finds
      the same post, with the response applied. */
  lemma FindInUpdatedPages(pages: seq<Page>, postId: string, res: LikeResult)
    ensures FindInPages(UpdatePages(pages, postId, res), postId) ==
      match FindInPages(pages, postId) case None => None case Some(p) => Some(WithLike(p, res))
  {
    var u := UpdatePages(pages, postId, res);
    forall k | 0 <= k < |pages|
      ensures FirstMatch(u[k].posts, postId) == FirstMatch(pages[k].posts, postId)
    {
      FirstMatchSameIds(u[k].posts, pages[k].posts, postId);
    }
    FirstPageSameMatches(u, pages, postId);
  }

  lemma PostToAddAfterUpdate(userPostsCache: Option<InfiniteData>, postId: string, res: LikeResult)
    ensures PostToAdd(UpdateView(userPostsCache, postId, res), postId, res) == PostToAdd(userPostsCache, postId, res)
  {
    if userPostsCache.Some? {
      FindInUpdatedPages(userPostsCache.value.pages, postId, res);
    }
  }

  /** The liked list with a post put at the head of its first page. */
  function Prepend(pages: seq<Page>, p: Post): (r: seq<Page>)
    requires |pages| > 0
    ensures |r| == |pages| && r[0].posts == [p] + pages[0].posts
    ensures r[0].lastEvaluatedKey == pages[0].lastEvaluatedKey && r[1..] == pages[1..]
  {
    [pages[0].(posts := [p] + pages[0].posts)] + pages[1..]
  }

  /** The liked-posts updater, given the own-posts entry it reads. */
  function LikedUpdate(prev: Option<InfiniteData>, postId: string, res: LikeResult,
                       userPostsCache: Option<InfiniteData>): (r: Option<InfiniteData>)
    ensures r.Some? <==> prev.Some?
    ensures r.Some? ==> r.value.pageParams == prev.value.pageParams && |r.value.pages| == |prev.value.pages|
    ensures prev.Some? && !res.isLiked ==> r.value.pages == RemovePages(prev.value.pages, postId)
    ensures prev.Some? && res.isLiked && PagesContain(prev.value.pages, postId) ==>
      r.value.pages == UpdatePages(prev.value.pages, postId, res)
    ensures (prev.Some? && res.isLiked && !PagesContain(prev.value.pages, postId)
             && PostToAdd(userPostsCache, postId, res).Some? && |prev.value.pages| > 0) ==>
      r.value.pages == Prepend(prev.value.pages, PostToAdd(userPostsCache, postId, res).value)
    ensures (prev.Some? && res.isLiked && !PagesContain(prev.value.pages, postId)
             && (PostToAdd(userPostsCache, postId, res).None? || |prev.value.pages| == 0)) ==> r == prev
  {
    match prev
    case None => None
    case Some(d) =>
      if !res.isLiked then Some(d.(pages := RemovePages(d.pages, postId)))
      else if PagesContain(d.pages, postId) then Some(d.(pages := UpdatePages(d.pages, postId, res)))
      else
        var add := PostToAdd(userPostsCache, postId, res);
        if add.Some? && |d.pages| > 0 then Some(d.(pages := Prepend(d.pages, add.value)))
        else Some(d)
  }

  /** The same updater as a step-by-step computation, with the search loop. */
  method LikedUpdater(prev: Option<InfiniteData>, postId: string, res: LikeResult,
                      userPostsCache: Option<InfiniteData>) returns (r: Option<InfiniteData>)
    ensures r == LikedUpdate(prev, postId, res, userPostsCache)
  {
    if prev.None? {
      return None;
    }
    var d := prev.value;
    if !res.isLiked {
      return Some(d.(pages := RemovePages(d.pages, postId)));
    }
    if PagesContain(d.pages, postId) {
      return Some(d.(pages := UpdatePages(d.pages, postId, res)));
    }
    var postToAdd := FindPostToAdd(userPostsCache, postId, res);
    if postToAdd.Some? && |d.pages| > 0 {
      return Some(d.(pages := Prepend(d.pages, postToAdd.value)));
    }
    return prev;
  }

  /** After an unlike the liked list no longer holds the post, keeps its page
      count, and keeps every other post on the page it was on. */
  lemma UnlikeDropsPost(d: InfiniteData, postId: string, res: LikeResult, userPostsCache: Option<InfiniteData>)
    requires !res.isLiked
    ensures var r := LikedUpdate(Some(d), postId, res, userPostsCache);
      r.Some? && !PagesContain(r.value.pages, postId) && |r.value.pages| == |d.pages|
      && forall i, p: Post :: 0 <= i < |d.pages| && p.postId != postId ==>
           (p in r.value.pages[i].posts <==> p in d.pages[i].posts)
    ensures var r := LikedUpdate(Some(d), postId, res, userPostsCache).value;
      forall i :: 0 <= i < |d.pages| ==>
        r.pages[i].posts == RemovePosts(d.pages[i].posts, postId)
        && r.pages[i].lastEvaluatedKey == d.pages[i].lastEvaluatedKey
  {
  }

  /** After an unlike the other posts of a page keep their order: what is
      kept from before any position comes before what is kept after it. */
  lemma UnlikeKeepsOrder(d: InfiniteData, postId: string, res: LikeResult, userPostsCache: Option<InfiniteData>,
                         i: nat, n: nat)
    requires !res.isLiked
    requires i < |d.pages| && n <= |d.pages[i].posts|
    ensures var r := LikedUpdate(Some(d), postId, res, userPostsCache).value;
      r.pages[i].posts == RemovePosts(d.pages[i].posts[..n], postId) + RemovePosts(d.pages[i].posts[n..], postId)
  {
    var ps := d.pages[i].posts;
    assert ps[..n] + ps[n..] == ps;
    RemovePostsAppend(ps[..n], ps[n..], postId);
  }

  /** After a like every copy of the post in the liked list carries the
      response's count and flag. */
  lemma {:induction false} LikedPostCarriesResponse(d: InfiniteData, postId: string, res: LikeResult,
                                                    userPostsCache: Option<InfiniteData>)
    requires res.isLiked
    ensures var r := LikedUpdate(Some(d), postId, res, userPostsCache).value;
      forall i, j :: 0 <= i < |r.pages| && 0 <= j < |r.pages[i].posts| && r.pages[i].posts[j].postId == postId ==>
        r.pages[i].posts[j].likeCount == res.likeCount && r.pages[i].posts[j].isLiked
  {
    var r := LikedUpdate(Some(d), postId, res, userPostsCache).value;
    if !PagesContain(d.pages, postId) && r != d {
      forall i, j | 0 <= i < |r.pages| && 0 <= j < |r.pages[i].posts| && r.pages[i].posts[j].postId == postId
        ensures r.pages[i].posts[j].likeCount == res.likeCount && r.pages[i].posts[j].isLiked
      {
      }
    }
  }

  /** A like puts the post into the liked list exactly when it was there
      already, or the own-posts cache has it and the list has a page;
      otherwise the list is left as it was. */
  lemma {:induction false} LikeAddsPostIff(d: InfiniteData, postId: string, res: LikeResult,
                                           userPostsCache: Option<InfiniteData>)
    requires res.isLiked
    ensures var r := LikedUpdate(Some(d), postId, res, userPostsCache).value;
      PagesContain(r.pages, postId) <==>
        PagesContain(d.pages, postId) || (PostToAdd(userPostsCache, postId, res).Some? && |d.pages| > 0)
    ensures !PagesContain(d.pages, postId) && (PostToAdd(userPostsCache, postId, res).None? || |d.pages| == 0) ==>
      LikedUpdate(Some(d), postId, res, userPostsCache) == Some(d)
  {
    var r := LikedUpdate(Some(d), postId, res, userPostsCache).value;
    if PagesContain(d.pages, postId) {
      var i, j :| 0 <= i < |d.pages| && 0 <= j < |d.pages[i].posts| && d.pages[i].posts[j].postId == postId;
      assert r.pages[i].posts[j].postId == postId;
    } else if PostToAdd(userPostsCache, postId, res).Some? && |d.pages| > 0 {
      assert r.pages[0].posts[0].postId == postId;
    }
  }

  /** Unliking a post no page holds changes nothing. */
  lemma RemovePagesAbsent(pages: seq<Page>, postId: string)
    requires !PagesContain(pages, postId)
    ensures RemovePages(pages, postId) == pages
  {
    var r := RemovePages(pages, postId);
    forall i | 0 <= i < |pages|
      ensures r[i] == pages[i]
    {
      forall j | 0 <= j < |pages[i].posts|
        ensures pages[i].posts[j].postId != postId
      {
      }
      RemovePostsAbsent(pages[i].posts, postId);
    }
  }

  /** Unliking the post just put at the head of the first page takes the
      list back to what it was before. */
  lemma RemovePagesPrepended(pages: seq<Page>, p: Post, postId: string)
    requires |pages| > 0 && p.postId == postId && !PagesContain(pages, postId)
    ensures RemovePages(Prepend(pages, p), postId) == pages
  {
    var r := RemovePages(Prepend(pages, p), postId);
    RemovePagesAbsent(pages, postId);
    forall i | 0 <= i < |pages|
      ensures r[i] == pages[i]
    {
      if i == 0 {
        RemovePostsAppend([p], pages[0].posts, postId);
        assert RemovePosts([p], postId) == [];
        assert r[0].posts == RemovePages(pages, postId)[0].posts;
      } else {
        assert Prepend(pages, p)[i] == Prepend(pages, p)[1..][i - 1] == pages[i];
        assert r[i] == RemovePages(pages, postId)[i];
      }
    }
  }

  /** A like of a post the liked list did not hold, followed by an unlike,
      leaves the liked list as it was. */
  lemma {:induction false} LikeThenUnlikeRestores(d: InfiniteData, postId: string, liked: LikeResult,
                                                  unliked: LikeResult, cacheAtLike: Option<InfiniteData>,
                                                  cacheAtUnlike: Option<InfiniteData>)
    requires liked.isLiked && !unliked.isLiked
    requires !PagesContain(d.pages, postId)
    ensures LikedUpdate(LikedUpdate(Some(d), postId, liked, cacheAtLike), postId, unliked, cacheAtUnlike) == Some(d)
  {
    var add := PostToAdd(cacheAtLike, postId, liked);
    if add.Some? && |d.pages| > 0 {
      RemovePagesPrepended(d.pages, add.value, postId);
    } else {
      RemovePagesAbsent(d.pages, postId);
    }
  }

  /** The detail updater: an absent entry stays absent, a present one takes
      the response's count and flag. */
  function DetailUpdate(prev: Option<Post>, res: LikeResult): (r: Option<Post>)
    ensures r.Some? <==> prev.Some?
    ensures r.Some? ==> r.value == WithLike(prev.value, res)
  {
    match prev
    case None => None
    case Some(p) => Some(WithLike(p, res))
  }

  /** `onSuccess` of the like-toggle mutation.  `selectedCategory` is `None`
      when the hook was given no category (the feed is then not touched);
      the liked-posts updater reads the own-posts entry as step 2 left it. */
  method OnSuccess(qc: QueryClient, postId: string, selectedCategory: Option<FeedKey>,
                   username: Option<string>, res: LikeResult)
    modifies qc
    ensures selectedCategory.None? ==> qc.feeds == old(qc.feeds)
    ensures selectedCategory.Some? ==> qc.feeds == SetQueryData(old(qc.feeds), selectedCategory.value,
      UpdateView(Get(old(qc.feeds), selectedCategory.value), postId, res))
    ensures qc.userPosts == SetQueryData(old(qc.userPosts), username,
      UpdateView(Get(old(qc.userPosts), username), postId, res))
    ensures qc.likedPosts == SetQueryData(old(qc.likedPosts), username,
      LikedUpdate(Get(old(qc.likedPosts), username), postId, res, Get(qc.userPosts, username)))
    ensures qc.details == SetQueryData(old(qc.details), Some(postId), DetailUpdate(Get(old(qc.details), Some(postId)), res))
    ensures qc.comments == old(qc.comments) && qc.commands == old(qc.commands)
  {
    if selectedCategory.Some? {
      var k := selectedCategory.value;
      qc.SetFeed(k, UpdateView(Get(qc.feeds, k), postId, res));
    }
    qc.SetUserPosts(username, UpdateView(Get(qc.userPosts, username), postId, res));
    var userPostsCache := Get(qc.userPosts, username);
    var liked := LikedUpdater(Get(qc.likedPosts, username), postId, res, userPostsCache);
    qc.SetLikedPosts(username, liked);
    qc.SetDetail(Some(postId), DetailUpdate(Get(qc.details, Some(postId)), res));
  }

  /** Because the own-posts entry only ever receives the same response,
      reading it after step 2 adds the same post as reading it before. */
  lemma LikedStepIgnoresOrder(prev: Option<InfiniteData>, postId: string, res: LikeResult,
                              userPostsCache: Option<InfiniteData>)
    ensures LikedUpdate(prev, postId, res, UpdateView(userPostsCache, postId, res)) ==
            LikedUpdate(prev, postId, res, userPostsCache)
  {
    if prev.Some? && res.isLiked && !PagesContain(prev.value.pages, postId) {
      PostToAddAfterUpdate(userPostsCache, postId, res);
    }
  }
}
