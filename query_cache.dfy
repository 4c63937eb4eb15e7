/** The part of the TanStack query cache the hooks read and write.  Each key
    family the client uses is a map of its own; `invalidateQueries` and
    `removeQueries` are recorded, with their literal keys, in the order they
    were issued. */
module QueryCache {
  import opened Common
  import opened Posts

  /** One element of a query key: a string, `undefined`, or `null`. */
  datatype KeyPart = Str(s: string) | UndefinedPart | NullPart

  datatype Command = Invalidate(key: seq<KeyPart>) | Remove(key: seq<KeyPart>)

  /** The second part of the detail key `['single', postId]`. */
  function DetailPart(k: Option<string>): (p: KeyPart)
    ensures k.None? <==> p == UndefinedPart
    ensures k.Some? ==> p == Str(k.value)
  {
    match k
    case None => UndefinedPart
    case Some(id) => Str(id)
  }

  /** TanStack's partial key match, restricted to the detail keys: the
      filter matches `['single', postId]` when it is a prefix of it. */
  predicate MatchesDetail(key: seq<KeyPart>, k: Option<string>)
  {
    |key| <= 2 && (|key| >= 1 ==> key[0] == Str("single")) && (|key| == 2 ==> key[1] == DetailPart(k))
  }

  /** The detail entries that survive `removeQueries(key)`. */
  function DropDetails(details: map<Option<string>, Post>, key: seq<KeyPart>): (r: map<Option<string>, Post>)
    ensures forall k :: k in r <==> k in details && !MatchesDetail(key, k)
    ensures forall k :: k in r ==> r[k] == details[k]
  {
    map k | k in details && !MatchesDetail(key, k) :: details[k]
  }

  /** Removing `['single', postId]` drops exactly that post's entry. */
  lemma DropOneDetail(details: map<Option<string>, Post>, k: Option<string>)
    ensures DropDetails(details, [Str("single"), DetailPart(k)]) == details - {k}
  {
    var r := DropDetails(details, [Str("single"), DetailPart(k)]);
    forall j | j in details
      ensures MatchesDetail([Str("single"), DetailPart(k)], j) <==> j == k
    {
      if j != k {
        assert DetailPart(j) != DetailPart(k);
      }
    }
    assert r.Keys == (details - {k}).Keys;
  }

  /** Removing `['single']` drops every detail entry. */
  lemma DropAllDetails(details: map<Option<string>, Post>)
    ensures DropDetails(details, [Str("single")]) == map[]
  {
    var r := DropDetails(details, [Str("single")]);
    assert r.Keys == {};
  }

  class QueryClient {
    /** `['posts', selectedCategory]`. */
    var feeds: map<FeedKey, InfiniteData>
    /** `['userPosts', username]`; `None` is a `null` username. */
    var userPosts: map<Option<string>, InfiniteData>
    /** `['userLikedPosts', username]`. */
    var likedPosts: map<Option<string>, InfiniteData>
    /** `['single', postId]`; `None` is an `undefined` post id. */
    var details: map<Option<string>, Post>
    /** `['comments', postId]`. */
    var comments: map<string, seq<Comment>>
    /** The invalidate and remove commands issued so far. */
    var commands: seq<Command>

    constructor()
      ensures feeds == map[] && userPosts == map[] && likedPosts == map[]
      ensures details == map[] && comments == map[] && commands == []
    {
      feeds, userPosts, likedPosts := map[], map[], map[];
      details, comments, commands := map[], map[], [];
    }

    method SetFeed(k: FeedKey, v: Option<InfiniteData>)
      modifies this
      ensures feeds == SetQueryData(old(feeds), k, v)
      ensures userPosts == old(userPosts) && likedPosts == old(likedPosts)
      ensures details == old(details) && comments == old(comments) && commands == old(commands)
    {
      feeds := SetQueryData(feeds, k, v);
    }

    method SetUserPosts(k: Option<string>, v: Option<InfiniteData>)
      modifies this
      ensures userPosts == SetQueryData(old(userPosts), k, v)
      ensures feeds == old(feeds) && likedPosts == old(likedPosts)
      ensures details == old(details) && comments == old(comments) && commands == old(commands)
    {
      userPosts := SetQueryData(userPosts, k, v);
    }

    method SetLikedPosts(k: Option<string>, v: Option<InfiniteData>)
      modifies this
      ensures likedPosts == SetQueryData(old(likedPosts), k, v)
      ensures feeds == old(feeds) && userPosts == old(userPosts)
      ensures details == old(details) && comments == old(comments) && commands == old(commands)
    {
      likedPosts := SetQueryData(likedPosts, k, v);
    }

    method SetDetail(k: Option<string>, v: Option<Post>)
      modifies this
      ensures details == SetQueryData(old(details), k, v)
      ensures feeds == old(feeds) && userPosts == old(userPosts) && likedPosts == old(likedPosts)
      ensures comments == old(comments) && commands == old(commands)
    {
      details := SetQueryData(details, k, v);
    }

    method SetComments(k: string, v: Option<seq<Comment>>)
      modifies this
      ensures comments == SetQueryData(old(comments), k, v)
      ensures feeds == old(feeds) && userPosts == old(userPosts) && likedPosts == old(likedPosts)
      ensures details == old(details) && commands == old(commands)
    {
      comments := SetQueryData(comments, k, v);
    }

    method InvalidateQueries(key: seq<KeyPart>)
      modifies this
      ensures commands == old(commands) + [Invalidate(key)]
      ensures feeds == old(feeds) && userPosts == old(userPosts) && likedPosts == old(likedPosts)
      ensures details == old(details) && comments == old(comments)
    {
      commands := commands + [Invalidate(key)];
    }

    /** The removal is logged, and the detail entries whose key the removed
        key is a prefix of are dropped. */
    method RemoveQueries(key: seq<KeyPart>)
      modifies this
      ensures commands == old(commands) + [Remove(key)]
      ensures details == DropDetails(old(details), key)
      ensures feeds == old(feeds) && userPosts == old(userPosts) && likedPosts == old(likedPosts)
      ensures comments == old(comments)
    {
      commands := commands + [Remove(key)];
      details := DropDetails(details, key);
    }
  }
}
