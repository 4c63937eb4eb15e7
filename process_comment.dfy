/** The comment submit handlers: create sends the trimmed text with one
    retry on CSRF expiry and returns its chain; delete is behind a confirm
    dialog. */
module ProcessComment {
  import opened Common
  import opened Strings
  import opened Posts
  import opened Effects
  import opened Retry
  import opened CommentCache

  /** `handleCommentCreateSubmit`: the chain's value is dropped, so a
      success resolves `undefined`; the last attempt's failure rejects. */
  function CommentCreateSubmit(postId: string, content: string, server: nat -> Settled<Comment>,
                               retryCount: nat): (r: Run<Void>)
    ensures var req := CreateComment(postId, Trim(content));
      Requests(r.effects) == [req] || Requests(r.effects) == [req, req]
    ensures |Requests(r.effects)| == 2 <==>
      retryCount == 0 && server(0).Rejected? && IsCsrfExpired(server(0).failure)
    ensures var last := Propagate(server(retryCount + |Requests(r.effects)| - 1), CsrfOnError);
      r.outcome.Fulfilled? <==> last.Fulfilled?
    ensures var last := Propagate(server(retryCount + |Requests(r.effects)| - 1), CsrfOnError);
      r.outcome.Rejected? ==> r.outcome.failure == last.failure
  {
    var req := CreateComment(postId, Trim(content));
    if retryCount == 0 then RetryOnlyOnCsrfLiteral(req, server, []); Settle(Submit(req, server, CsrfOnError, [], retryCount))
    else Settle(Submit(req, server, CsrfOnError, [], retryCount))
  }

  /** `.then(() => {})`: keep the effects, drop the value. */
  function Settle(r: Run<Comment>): (s: Run<Void>)
    ensures s.effects == r.effects
    ensures s.outcome.Fulfilled? <==> r.outcome.Fulfilled?
    ensures r.outcome.Rejected? ==> s.outcome == Rejected(r.outcome.failure)
  {
    Run(r.effects, if r.outcome.Fulfilled? then Fulfilled(Undefined) else Rejected(r.outcome.failure))
  }

  /** The text sent has no leading or trailing white space. */
  lemma SentCommentIsTrimmed(postId: string, content: string, server: nat -> Settled<Comment>, retryCount: nat)
    ensures forall q :: q in Requests(CommentCreateSubmit(postId, content, server, retryCount).effects) ==>
      q.CreateComment? && q.postId == postId && q.comment == Trim(content)
      && (q.comment != [] ==> !IsJsSpace(q.comment[0]) && !IsJsSpace(q.comment[|q.comment| - 1]))
  {
    var r := CommentCreateSubmit(postId, content, server, retryCount);
    OnlyRequest(Requests(r.effects), CreateComment(postId, Trim(content)));
  }

  /** `handleCommentDeleteSubmit`: the delete mutation fires only when the
      dialog is confirmed; its `onError` swallows the failure. */
  function CommentDeleteSubmit(confirmed: bool, postId: string, commentId: string, outcome: Settled<()>): (es: seq<Effect>)
    ensures Requests(es) == (if confirmed then [DeleteComment(postId, commentId)] else [])
    ensures !confirmed ==> es == []
  {
    if confirmed then MutateAsync(DeleteComment(postId, commentId), outcome, OnDeleteError).effects else []
  }
}
