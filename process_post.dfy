/** The post submit handlers: the payload built from the form, one retry
    on CSRF expiry, and the confirm gate in front of a delete.  Neither
    submit returns its promise chain, so both resolve `undefined` at once. */
module ProcessPost {
  import opened Common
  import opened Strings
  import opened Posts
  import opened Validation
  import opened Effects
  import opened Retry
  import opened PostCache

  /** `description.trim() || null`. */
  function Description(description: string): (r: Option<string>)
    ensures r.None? <==> IsBlank(description)
    ensures r.Some? ==> r.value != [] && !IsJsSpace(r.value[0]) && !IsJsSpace(r.value[|r.value| - 1])
    ensures r.Some? ==> |r.value| <= |description|
    ensures r.Some? ==> r.value == Trim(description)
  {
    TrimEmptyIffBlank(description);
    var t := Trim(description);
    if t == [] then None else Some(t)
  }

  /** The post fields sent for a form: the selected category, the trimmed
      description and the other fields as typed. */
  function PayloadOf(form: PostForm): (p: PostPayload)
    ensures p.category == form.selectedCategory && p.title == form.title
    ensures p.description == Description(form.description)
    ensures p.recommend1 == form.recommend1 && p.recommend2 == form.recommend2 && p.recommend3 == form.recommend3
  {
    PostPayload(form.selectedCategory, form.title, Description(form.description),
                form.recommend1, form.recommend2, form.recommend3)
  }

  /** `handlePostCreateSubmit`: the create request carries the store's user
      and the form's payload; on success the page goes to `/home`. */
  function PostCreateSubmit(username: Option<string>, form: PostForm, server: nat -> Settled<()>,
                            retryCount: nat): (r: Detached)
    ensures var req := CreatePost(CreateVariables(username, PayloadOf(form)));
      Requests(r.effects) == [req] || Requests(r.effects) == [req, req]
    ensures |Requests(r.effects)| == 2 <==>
      retryCount == 0 && server(0).Rejected? && IsCsrfExpired(server(0).failure)
  {
    var req := CreatePost(CreateVariables(username, PayloadOf(form)));
    if retryCount == 0 then
      RetryOnlyOnCsrfLiteral(req, server, [Navigate("/home", false)]);
      Detach(Submit(req, server, CsrfOnError, [Navigate("/home", false)], retryCount))
    else Detach(Submit(req, server, CsrfOnError, [Navigate("/home", false)], retryCount))
  }

  /** `handlePostUpdateSubmit`: the update request for the hook's `postId`
      with the form's payload; on success the page goes to the post. */
  function PostUpdateSubmit(postId: string, form: PostForm, server: nat -> Settled<Post>,
                            retryCount: nat): (r: Detached)
    ensures var req := UpdateRequest(UpdateVariables(postId, PayloadOf(form)));
      Requests(r.effects) == [req] || Requests(r.effects) == [req, req]
    ensures |Requests(r.effects)| == 2 <==>
      retryCount == 0 && server(0).Rejected? && IsCsrfExpired(server(0).failure)
  {
    var req := UpdateRequest(UpdateVariables(postId, PayloadOf(form)));
    assert server(0).Rejected? ==> Propagate(server(0), OnUpdateError) == server(0);
    Detach(Submit(req, server, OnUpdateError, [Navigate("/posts/" + postId, false)], retryCount))
  }

  /** A create whose first attempt succeeds sends one request and ends on
      `/home`; nothing is left unhandled. */
  lemma CreateSuccessNavigatesHome(username: Option<string>, form: PostForm, server: nat -> Settled<()>)
    requires server(0).Fulfilled?
    ensures var r := PostCreateSubmit(username, form, server, 0);
      r.unhandled.None? && r.effects[|r.effects| - 1] == Navigate("/home", false)
  {
    var req := CreatePost(CreateVariables(username, PayloadOf(form)));
    var after := [Navigate("/home", false)];
    SucceedsAtOnce(req, server, CsrfOnError, after, 0, server(0).value);
    assert PostCreateSubmit(username, form, server, 0) == Detach(Submit(req, server, CsrfOnError, after, 0));
    var es := [Send(req), Callback(req)] + after;
    assert es[|es| - 1] == Navigate("/home", false);
  }

  /** A create that fails twice leaves the retry's failure unhandled: the
      handler itself has already resolved. */
  lemma CreateFailureIsUnobserved(username: Option<string>, form: PostForm, server: nat -> Settled<()>, f: Failure)
    requires server(0).Rejected? && IsCsrfExpired(server(0).failure)
    requires server(1) == Rejected(f) && f.response.Some?
    ensures PostCreateSubmit(username, form, server, 0).unhandled == Some(f)
  {
  }

  /** `handlePostDeleteSubmit`: the delete mutation fires only when the
      dialog is confirmed; `mutate` swallows its failure. */
  function PostDeleteSubmit(confirmed: bool, postId: string, outcome: Settled<()>): (es: seq<Effect>)
    ensures Requests(es) == (if confirmed then [DeletePost(postId)] else [])
    ensures !confirmed ==> es == []
  {
    if confirmed then MutateAsync(DeletePost(postId), outcome, CsrfOnError).effects else []
  }
}
