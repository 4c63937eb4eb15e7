/** The cache commands and navigation of the post mutations' `onSuccess`
    callbacks, and their `onError` callbacks.  Each `onSuccess` is given as
    written and, where it reads a property the mutation's variables do not
    have, as evidently intended. */
module PostCache {
  import opened Common
  import opened Posts
  import opened QueryCache
  import opened Effects

  /** The key `['posts']` every post mutation invalidates. */
  const PostsKey: seq<KeyPart> := [Str("posts")]

  /** How `undefined` reads inside a template string. */
  const UndefinedText: string := "undefined"

  /** `onSuccess` of the create mutation. */
  method OnCreateSuccess(qc: QueryClient) returns (effects: seq<Effect>)
    modifies qc
    ensures qc.commands == old(qc.commands) + [Invalidate(PostsKey)]
    ensures qc.feeds == old(qc.feeds) && qc.userPosts == old(qc.userPosts) && qc.likedPosts == old(qc.likedPosts)
    ensures qc.details == old(qc.details) && qc.comments == old(qc.comments)
    ensures effects == [Navigate("/home", false)]
  {
    qc.InvalidateQueries(PostsKey);
    effects := [Navigate("/home", false)];
  }

  /** `variables.id` of the update mutation: the variables carry `postId`
      and no `id`, so the detail key's second part reads `undefined`. */
  function UpdateDetailKeyAsWritten(variables: UpdateVariables): (k: Option<string>)
    ensures k != Some(variables.postId)
  {
    None
  }

  /** `onSuccess` of the update mutation as written: the server's body is
      stored under `['single', undefined]` and the page navigated to is
      `/posts/undefined`. */
  method OnUpdateSuccessAsWritten(qc: QueryClient, variables: UpdateVariables, body: Post)
    returns (effects: seq<Effect>)
    modifies qc
    ensures qc.commands == old(qc.commands) + [Invalidate(PostsKey)]
    ensures qc.details == old(qc.details)[UpdateDetailKeyAsWritten(variables) := body]
    ensures Get(qc.details, Some(variables.postId)) == Get(old(qc.details), Some(variables.postId))
    ensures qc.feeds == old(qc.feeds) && qc.userPosts == old(qc.userPosts) && qc.likedPosts == old(qc.likedPosts)
    ensures qc.comments == old(qc.comments)
    ensures effects == [Navigate("/posts/" + UndefinedText, true)]
  {
    qc.InvalidateQueries(PostsKey);
    qc.SetDetail(UpdateDetailKeyAsWritten(variables), Some(body));
    effects := [Navigate("/posts/" + UndefinedText, true)];
  }

  /** `onSuccess` of the update mutation keyed by the post that was sent. */
  method OnUpdateSuccess(qc: QueryClient, variables: UpdateVariables, body: Post)
    returns (effects: seq<Effect>)
    modifies qc
    ensures qc.commands == old(qc.commands) + [Invalidate(PostsKey)]
    ensures qc.details == old(qc.details)[Some(variables.postId) := body]
    ensures qc.feeds == old(qc.feeds) && qc.userPosts == old(qc.userPosts) && qc.likedPosts == old(qc.likedPosts)
    ensures qc.comments == old(qc.comments)
    ensures effects == [Navigate("/posts/" + variables.postId, true)]
  {
    qc.InvalidateQueries(PostsKey);
    qc.SetDetail(Some(variables.postId), Some(body));
    effects := [Navigate("/posts/" + variables.postId, true)];
  }

  /** The update request: the id goes into the URL and the body holds
      exactly the six post fields. */
  function UpdateRequest(variables: UpdateVariables): (r: Request)
    ensures r.UpdatePost? && r.postId == variables.postId && r.body == variables.post
  {
    UpdatePost(variables.postId, variables.post)
  }

  /** `variables.id` of the delete mutation: the variables are the raw id
      string, whose `id` property is `undefined`. */
  function DeleteDetailKeyAsWritten(variables: string): (k: KeyPart)
    ensures k != Str(variables)
  {
    UndefinedPart
  }

  /** `onSuccess` of the delete mutation as written: the removal names
      `['single', undefined]`, so only an entry under an `undefined` id is
      dropped and the deleted post's detail stays cached. */
  method OnDeleteSuccessAsWritten(qc: QueryClient, variables: string) returns (effects: seq<Effect>)
    modifies qc
    ensures qc.commands == old(qc.commands) + [Invalidate(PostsKey), Remove([Str("single"), DeleteDetailKeyAsWritten(variables)])]
    ensures Remove([Str("single"), Str(variables)]) !in qc.commands[|old(qc.commands)|..]
    ensures qc.details == old(qc.details) - {None}
    ensures Get(qc.details, Some(variables)) == Get(old(qc.details), Some(variables))
    ensures qc.feeds == old(qc.feeds) && qc.userPosts == old(qc.userPosts) && qc.likedPosts == old(qc.likedPosts)
    ensures qc.comments == old(qc.comments)
    ensures effects == [Navigate("/home", false)]
  {
    qc.InvalidateQueries(PostsKey);
    DropOneDetail(qc.details, None);
    qc.RemoveQueries([Str("single"), DeleteDetailKeyAsWritten(variables)]);
    effects := [Navigate("/home", false)];
  }

  /** `onSuccess` of the delete mutation removing the deleted post's entry. */
  method OnDeleteSuccess(qc: QueryClient, variables: string) returns (effects: seq<Effect>)
    modifies qc
    ensures qc.commands == old(qc.commands) + [Invalidate(PostsKey), Remove([Str("single"), Str(variables)])]
    ensures qc.details == old(qc.details) - {Some(variables)}
    ensures Get(qc.details, Some(variables)).None?
    ensures qc.feeds == old(qc.feeds) && qc.userPosts == old(qc.userPosts) && qc.likedPosts == old(qc.likedPosts)
    ensures qc.comments == old(qc.comments)
    ensures effects == [Navigate("/home", false)]
  {
    qc.InvalidateQueries(PostsKey);
    DropOneDetail(qc.details, Some(variables));
    qc.RemoveQueries([Str("single"), Str(variables)]);
    effects := [Navigate("/home", false)];
  }

  /** `onError` of the update mutation: optional chaining, so it never
      throws a TypeError of its own and always rethrows the error. */
  function OnUpdateError(f: Failure): (r: ErrorReaction)
    ensures r.thrown == Some(f)
    ensures r.togglesCsrf <==> IsCsrfExpired(f)
  {
    ErrorReaction(OptionalDetail(f) == Some(CsrfExpired), Some(f))
  }
}
