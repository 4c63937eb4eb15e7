/** The comment-list cache `['comments', postId]` after a comment is
    created or deleted, and the two `onError` callbacks of the comment
    mutations. */
module CommentCache {
  import opened Common
  import opened Posts
  import opened QueryCache

  /** The list after a create: the server's comment appended to a loaded
      list (an empty list counts as loaded); no list stays no list. */
  function AppendComment(prev: Option<seq<Comment>>, created: Comment): (r: Option<seq<Comment>>)
    ensures r.Some? <==> prev.Some?
    ensures r.Some? ==> |r.value| == |prev.value| + 1
    ensures r.Some? ==> r.value[..|prev.value|] == prev.value && r.value[|prev.value|] == created
  {
    match prev
    case None => None
    case Some(cs) => Some(cs + [created])
  }

  /** The comments whose id differs from `commentId`, in order. */
  function RemoveComments(cs: seq<Comment>, commentId: string): (r: seq<Comment>)
    ensures |r| <= |cs|
    ensures forall c :: c in r <==> c in cs && c.commentId != commentId
  {
    if cs == [] then []
    else if cs[0].commentId == commentId then RemoveComments(cs[1..], commentId)
    else [cs[0]] + RemoveComments(cs[1..], commentId)
  }

  /** Deleting an id the list does not hold changes nothing. */
  lemma {:induction false} RemoveCommentsAbsent(cs: seq<Comment>, commentId: string)
    requires forall i :: 0 <= i < |cs| ==> cs[i].commentId != commentId
    ensures RemoveComments(cs, commentId) == cs
  {
    if cs != [] {
      RemoveCommentsAbsent(cs[1..], commentId);
    }
  }

  /** The filter keeps the order of the remaining comments. */
  lemma {:induction false} RemoveCommentsAppend(a: seq<Comment>, b: seq<Comment>, commentId: string)
    ensures RemoveComments(a + b, commentId) == RemoveComments(a, commentId) + RemoveComments(b, commentId)
  {
    if a == [] {
      assert a + b == b;
    } else {
      assert (a + b)[0] == a[0] && (a + b)[1..] == a[1..] + b;
      RemoveCommentsAppend(a[1..], b, commentId);
      if a[0].commentId != commentId {
        assert RemoveComments(a + b, commentId) ==
          [a[0]] + (RemoveComments(a[1..], commentId) + RemoveComments(b, commentId));
      }
    }
  }

  /** Deleting the same id twice is deleting it once. */
  lemma {:induction false} RemoveCommentsIdempotent(cs: seq<Comment>, commentId: string)
    ensures RemoveComments(RemoveComments(cs, commentId), commentId) == RemoveComments(cs, commentId)
  {
    var r := RemoveComments(cs, commentId);
    forall i | 0 <= i < |r|
      ensures r[i].commentId != commentId
    {
      assert r[i] in r;
    }
    RemoveCommentsAbsent(r, commentId);
  }

  /** A created comment that is then deleted leaves a list without that id
      as it was. */
  lemma {:induction false} CreateThenDeleteRestores(cs: seq<Comment>, created: Comment)
    requires forall i :: 0 <= i < |cs| ==> cs[i].commentId != created.commentId
    ensures RemoveComments(AppendComment(Some(cs), created).value, created.commentId) == cs
  {
    RemoveCommentsAppend(cs, [created], created.commentId);
    RemoveCommentsAbsent(cs, created.commentId);
    assert RemoveComments([created], created.commentId) == [];
  }

  /** The list after a delete; no list stays no list. */
  function AfterDelete(prev: Option<seq<Comment>>, commentId: string): (r: Option<seq<Comment>>)
    ensures r.Some? <==> prev.Some?
    ensures r.Some? ==> r.value == RemoveComments(prev.value, commentId)
  {
    match prev
    case None => None
    case Some(cs) => Some(RemoveComments(cs, commentId))
  }

  /** `onSuccess` of the create mutation: read the list, and write it back
      with the new comment only when there was one. */
  method OnCreateSuccess(qc: QueryClient, postId: string, created: Comment)
    modifies qc
    ensures qc.comments == SetQueryData(old(qc.comments), postId, AppendComment(Get(old(qc.comments), postId), created))
    ensures qc.feeds == old(qc.feeds) && qc.userPosts == old(qc.userPosts) && qc.likedPosts == old(qc.likedPosts)
    ensures qc.details == old(qc.details) && qc.commands == old(qc.commands)
  {
    var previousComments := Get(qc.comments, postId);
    if previousComments.Some? {
      qc.SetComments(postId, Some(previousComments.value + [created]));
    }
  }

  /** `onSuccess` of the delete mutation, with the deleted comment's id. */
  method OnDeleteSuccess(qc: QueryClient, postId: string, commentId: string)
    modifies qc
    ensures qc.comments == SetQueryData(old(qc.comments), postId, AfterDelete(Get(old(qc.comments), postId), commentId))
    ensures qc.feeds == old(qc.feeds) && qc.userPosts == old(qc.userPosts) && qc.likedPosts == old(qc.likedPosts)
    ensures qc.details == old(qc.details) && qc.commands == old(qc.commands)
  {
    var previousComments := Get(qc.comments, postId);
    if previousComments.Some? {
      qc.SetComments(postId, Some(RemoveComments(previousComments.value, commentId)));
    }
  }

  /** `onError` of the delete mutation: the alert reads
      `err.response.data.detail` first, which throws a TypeError for an
      error without a response; otherwise the CSRF flag is toggled on the
      session or the CSRF expiry literal, and the error is not rethrown. */
  function OnDeleteError(f: Failure): (r: ErrorReaction)
    ensures f.response.None? ==> r == ErrorReaction(false, Some(TypeErrorFailure))
    ensures f.response.Some? ==> r.thrown.None?
    ensures f.response.Some? ==>
      (r.togglesCsrf <==> OptionalDetail(f) == Some(JwtExpired) || OptionalDetail(f) == Some(CsrfExpired))
  {
    match StrictDetail(f)
    case None => ErrorReaction(false, Some(TypeErrorFailure))
    case Some(detail) => ErrorReaction(detail == Some(JwtExpired) || detail == Some(CsrfExpired), None)
  }
}
