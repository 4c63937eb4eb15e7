# mugen-reco-frontend: a Dafny model of the client core

mugen-reco-frontend is a React client for a site where users post three
ranked recommendations in a category, like posts and comment on them. This
project models the logic of its core:

- the form validators;
- the cache synchroniser that runs after a like toggle and keeps the feed,
  own-posts, liked-posts and detail views consistent without a refetch;
- the comment and post cache commands run by the mutations' `onSuccess` and
  `onError` callbacks;
- the Redux auth slice;
- the submit handlers, which retry once when the server reports an expired
  CSRF token;
- the registration page's sanitiser, availability check and submit gate.

The model's parts:

- **Client state.** The query cache is a class `QueryClient`. Its fields
  are one map per key family and a log of the invalidate and remove
  commands. The Redux store is a class `AppStore` driven by a pure reducer.
  The registration page is a class `RegisterForm` whose methods are the
  page's handlers.
- **Pure computation.** Cache updaters, validators, reducers and the retry
  protocol are functions. Every validator also has a push-style method
  that runs the checks in the source's order and is proved equal to the
  declarative result.
- **Server replies.** Each handler takes a script `nat -> Settled<R>`
  parameter that gives the server's reply for each attempt number, which
  is the source's `retryCount`. A handler returns the trace of effects it
  caused and how its promise settled:
  - effects are requests sent, callbacks run, actions dispatched, waits,
    navigations, cache removals and log lines;
  - a handler that does not return its promise chain reports the chain's
    unobserved rejection separately.
- **Error objects.** A failure carries an optional `response`. A strict
  read of `err.response.data.detail` on a failure without a response
  throws a TypeError, and the model follows that explicitly. Optional
  chaining (`?.`) does not.

## Model

| member | source | states |
|---|---|---|
| Common.Get | src/hooks/comment/useMutateComment.js:21 | `getQueryData` yields an entry exactly when the key is cached, and then that entry |
| Common.SetQueryData | src/hooks/like/useMutateLike.js:28-29 | an updater returning `undefined` writes nothing; otherwise the key holds the new value and every other key is unchanged |
| Common.OptionalDetail | src/hooks/posts/useMutatePost.js:52 | `err.response?.data?.detail` yields a value only when there is a response, and then its `detail` |
| Common.StrictDetail | src/hooks/posts/useMutatePost.js:22 | `err.response.data.detail` throws exactly when there is no response, and otherwise agrees with the optional read |
| Common.CsrfOnError | src/hooks/posts/useMutatePost.js:21-27 | the strict `onError`: it toggles the CSRF flag exactly on the CSRF literal, rethrows the error when there is a response, and throws a TypeError when there is none |
| Common.OnlyExactLiteralIsCsrf | src/hooks/posts/useProcessPost.js:28 | a response counts as CSRF expiry exactly when its detail is the literal `'The CSRF token has expired.'` |
| Common.TypeErrorNeverRetries | src/hooks/posts/useProcessPost.js:28 | the TypeError thrown by a strict `onError` never triggers the retry |
| Common.CsrfSurvivesOnError | src/hooks/posts/useMutatePost.js:21-27 | the error `mutateAsync` rejects with after the strict `onError` is CSRF expiry exactly when the server's error was |
| Strings.TrimStart | src/hooks/comment/useProcessComment.js:9 | the result is a suffix, every dropped character is white space, and the first kept one is not |
| Strings.TrimEnd | src/hooks/comment/useProcessComment.js:9 | the result is a prefix, every dropped character is white space, and the last kept one is not |
| Strings.Trim | src/hooks/comment/useProcessComment.js:9 | `trim()` is no longer than its input and has no white space at either end |
| Strings.TrimIsMiddle | src/hooks/comment/useProcessComment.js:9 | `trim()` is the input's own middle: after the leading white space it agrees with the input character by character, and everything before and after it is white space |
| Strings.TrimEmptyIffBlank | src/utils/validation.js:139 | `!s.trim()` holds exactly when the string is all white space |
| Strings.TrimKeepsTrimmed | src/hooks/comment/useProcessComment.js:9 | a string without white space at its ends is its own trim |
| Strings.LowerChar | src/utils/validation.js:46 | `toLowerCase` turns an ASCII capital into a small letter, leaves other characters alone, and keeps the name-character class |
| Strings.Lower | src/utils/validation.js:46 | `toLowerCase` keeps the length and lowercases position by position |
| Strings.LowerIdempotent | src/utils/validation.js:46 | lowercasing twice is lowercasing once |
| Strings.ContainsWindow | src/utils/validation.js:103 | `includes` finds every substring of the string |
| Validation.ViolatesUsername | src/utils/validation.js:10-48 | the six checks of a non-empty name: shorter than 3, longer than 20, a character outside letters, digits and `_ . -`, a first character that is not a letter or digit, two adjacent symbols, a reserved word in any case |
| Validation.UsernameResult | src/utils/validation.js:1-54 | an empty name gets exactly "required" and is invalid; a valid name has 3 to 20 allowed characters, starts with a letter or digit, has no two adjacent symbols and is not reserved in any case |
| Validation.ValidateUsername | src/utils/validation.js:1-54 | the push-style validator returns the declarative result: "required" alone for an empty name, otherwise one message per failed check in source order |
| Validation.UsernameValidIffNoErrors | src/utils/validation.js:5-8 | `isValid` holds exactly when no message was pushed; an empty name gets exactly the "required" message |
| Validation.UsernameMessageIff | src/utils/validation.js:10-48 | a non-empty name gets a check's message exactly when it fails that check |
| Validation.UsernameNoRepeats | src/utils/validation.js:10-48 | no message is pushed twice |
| Validation.NoRepeatsPairwise | src/utils/validation.js:10-48 | a list with no repeated message holds different messages at any two positions |
| Validation.ReservedWordsShape | src/utils/validation.js:34-44 | the nine reserved words are 3 to 13 lowercase ASCII letters |
| Validation.ReservedAnyCase | src/utils/validation.js:46-48 | a name whose lowercase form is reserved gets exactly the reserved message, whatever its case, and is invalid |
| Validation.AdjacentSymbolsRejected | src/utils/validation.js:29-31 | any two adjacent characters from `_ . -` give the consecutive-symbol message |
| Validation.ClassCount | src/utils/validation.js:74-81 | the number of character classes present is at most four |
| Validation.ViolatesPassword | src/utils/validation.js:65-105 | the four checks of a non-empty password: shorter than 8, longer than 72, fewer than 3 character classes, containing the non-empty name apart from case |
| Validation.PasswordResult | src/utils/validation.js:56-111 | an empty password gets exactly "required" and is invalid; a valid one has 8 to 72 characters and at least 3 classes, and does not contain the non-empty name apart from case |
| Validation.ValidatePassword | src/utils/validation.js:56-111 | the push-style validator returns the declarative result for the length, strength and similarity checks |
| Validation.PasswordValidIffNoErrors | src/utils/validation.js:60-63 | `isValid` holds exactly when no message was pushed; an empty password gets exactly the "required" message |
| Validation.PasswordMessageIff | src/utils/validation.js:66-105 | a non-empty password gets a check's message exactly when it fails that check; the strength check fails exactly when fewer than 3 classes occur |
| Validation.PasswordNoRepeats | src/utils/validation.js:66-105 | no message is pushed twice |
| Validation.PasswordEqualToUsernameRejected | src/utils/validation.js:103-105 | a password equal to the name apart from case gets the similarity message and is invalid |
| Validation.StrongPasswordAccepted | src/utils/validation.js:66-109 | 8 to 72 characters with three classes and no name give a valid password |
| Validation.ConfirmResult | src/utils/validation.js:113-129 | valid exactly when the confirmation is non-empty and equals the password; "required" for an empty one, "mismatch" otherwise |
| Validation.ValidateConfirmPassword | src/utils/validation.js:113-129 | the push-style validator returns `ConfirmResult` |
| Validation.LoginInputResult | src/utils/validation.js:132-160 | "required" on the trimmed name and the untrimmed password, the limits 50 and 100 on untrimmed lengths, valid exactly when both lists are empty |
| Validation.ValidateLoginInput | src/utils/validation.js:132-160 | the push-style validator returns `LoginInputResult` |
| Validation.RequiredField | src/utils/validation.js:178-182 | at most one message: "required" exactly when blank after trimming, otherwise the length message exactly when the untrimmed length exceeds 50 |
| Validation.DescriptionField | src/utils/validation.js:185-192 | only the trimmed length is limited, to 300 |
| Validation.PostFormSpec | src/utils/validation.js:162-219 | the category list is empty exactly when a category is selected; the title and recommendation lists are `RequiredField` with their messages and limits, the description list is `DescriptionField`; the form is valid exactly when all six lists are empty |
| Validation.CheckRequired | src/utils/validation.js:195-199 | the push-style field check returns `RequiredField` |
| Validation.CheckDescription | src/utils/validation.js:185-192 | the push-style description check returns `DescriptionField` |
| Validation.ValidatePostForm | src/utils/validation.js:162-219 | the push-style validator returns `PostFormSpec` |
| Validation.LongTitleRejected | src/utils/validation.js:180-182 | a 51-character title that is not blank gets exactly the length message |
| Validation.BlankDescriptionAccepted | src/utils/validation.js:185-186 | a description of only white space passes, however long |
| Validation.CommentFormSpec | src/utils/validation.js:221-239 | "required" exactly when blank, "too long" exactly over 200 untrimmed characters, valid exactly when no message |
| Validation.ValidateCommentForm | src/utils/validation.js:221-239 | the push-style validator returns `CommentFormSpec` |
| Validation.CommentLengthBoundary | src/utils/validation.js:232-234 | 200 characters pass, 201 get exactly one message, and a long blank comment gets both |
| QueryCache.QueryClient.constructor | src/hooks/like/useMutateLike.js:11 | a fresh client holds no entries and no commands |
| QueryCache.QueryClient.SetFeed | src/hooks/like/useMutateLike.js:27-28 | the feed entry is written as `setQueryData` does and every other view is unchanged |
| QueryCache.QueryClient.SetUserPosts | src/hooks/like/useMutateLike.js:50 | the own-posts entry is written as `setQueryData` does and every other view is unchanged |
| QueryCache.QueryClient.SetLikedPosts | src/hooks/like/useMutateLike.js:71 | the liked-posts entry is written as `setQueryData` does and every other view is unchanged |
| QueryCache.QueryClient.SetDetail | src/hooks/like/useMutateLike.js:148-149 | the detail entry is written as `setQueryData` does and every other view is unchanged |
| QueryCache.QueryClient.SetComments | src/hooks/comment/useMutateComment.js:23 | the comment list entry is written as `setQueryData` does and every other view is unchanged |
| QueryCache.QueryClient.InvalidateQueries | src/hooks/posts/useMutatePost.js:18 | the invalidation is appended to the command log and no entry changes |
| QueryCache.QueryClient.RemoveQueries | src/hooks/posts/useMutatePost.js:67 | the removal is appended to the command log, the detail entries the key matches are dropped, and no other entry changes |
| QueryCache.DetailPart | src/hooks/posts/useMutatePost.js:67 | an `undefined` id is the `undefined` key part, and an id is its string |
| QueryCache.DropDetails | src/hooks/auth/useProcessAuth.js:73 | a detail entry survives a removal exactly when the removed key is not a prefix of its key, and it keeps its value |
| QueryCache.DropOneDetail | src/hooks/posts/useMutatePost.js:67 | removing `['single', postId]` drops exactly that one entry |
| QueryCache.DropAllDetails | src/hooks/auth/useProcessAuth.js:73 | removing `['single']` drops every detail entry |
| LikeCache.WithLike | src/hooks/like/useMutateLike.js:37-41 | the post takes the response's count and flag and keeps its id and every other field |
| LikeCache.UpdatePosts | src/hooks/like/useMutateLike.js:35-43 | same length; the posts with the id take the response and all others are unchanged |
| LikeCache.UpdatePages | src/hooks/like/useMutateLike.js:33-44 | page count, page order and cursors kept; each post updated as in `UpdatePosts` |
| LikeCache.UpdateView | src/hooks/like/useMutateLike.js:28-46 | an absent entry stays absent; a present one keeps its page params and has its pages updated |
| LikeCache.UpdatePagesIdempotent | src/hooks/like/useMutateLike.js:33-44 | applying the same response twice is applying it once |
| LikeCache.RemovePosts | src/hooks/like/useMutateLike.js:80 | a post is kept exactly when it was there and has another id |
| LikeCache.RemovePostsAbsent | src/hooks/like/useMutateLike.js:80 | filtering a page without the post changes nothing |
| LikeCache.RemovePostsAppend | src/hooks/like/useMutateLike.js:80 | the filter distributes over concatenation, so it keeps the order of the remaining posts |
| LikeCache.RemovePostsIdempotent | src/hooks/like/useMutateLike.js:80 | unliking twice is unliking once |
| LikeCache.RemovePages | src/hooks/like/useMutateLike.js:75-83 | cursors and page count kept; afterwards no page holds the post |
| LikeCache.RemovePagesAbsent | src/hooks/like/useMutateLike.js:75-83 | unliking a post no page holds leaves the pages as they were |
| LikeCache.RemovePagesPrepended | src/hooks/like/useMutateLike.js:75-83 | unliking a post that was only at the head of the first page gives back the pages before it was added |
| LikeCache.FirstMatch | src/hooks/like/useMutateLike.js:117 | `find` returns the first index with the id, or nothing exactly when no post has it |
| LikeCache.FirstMatchSameIds | src/hooks/like/useMutateLike.js:117 | `find` depends only on the ids |
| LikeCache.FirstPage | src/hooks/like/useMutateLike.js:116-126 | the first page whose `find` succeeds, or nothing exactly when none does |
| LikeCache.FirstPageAt | src/hooks/like/useMutateLike.js:116-126 | the page where the loop breaks, with no match on an earlier page, is the first matching page |
| LikeCache.PagesContainIffFound | src/hooks/like/useMutateLike.js:88-90 | the `some`/`some` existence test agrees with the page search |
| LikeCache.FindInPages | src/hooks/like/useMutateLike.js:116-126 | the search finds a post exactly when some page holds the id; what it finds is the first post with the id on the first page whose `find` succeeds |
| LikeCache.PostToAdd | src/hooks/like/useMutateLike.js:111-127 | a post to add exists exactly when the own-posts entry exists and holds the id; it is the post the search finds, with the response's count and flag |
| LikeCache.FindPostToAdd | src/hooks/like/useMutateLike.js:112-127 | the `for ... break` loop over the own-posts pages computes `PostToAdd` |
| LikeCache.FirstPageSameMatches | src/hooks/like/useMutateLike.js:116-126 | the page search depends only on each page's `find` result |
| LikeCache.FindInUpdatedPages | src/hooks/like/useMutateLike.js:111-127 | searching the own-posts pages after they took the response finds the same post's updated copy |
| LikeCache.PostToAddAfterUpdate | src/hooks/like/useMutateLike.js:111 | the post to add is the same whether read before or after the own-posts entry took the response |
| LikeCache.Prepend | src/hooks/like/useMutateLike.js:130-140 | the post goes at the head of the first page; its cursor and the other pages are kept |
| LikeCache.LikedUpdate | src/hooks/like/useMutateLike.js:71-146 | an absent entry stays absent; a present one keeps its page params and page count; an unlike filters every page (`RemovePages`); a like of a listed post updates it in place (`UpdatePages`); a like of an unlisted post found in the own posts puts that copy at the head of a non-empty first page (`Prepend`); otherwise the entry is unchanged |
| LikeCache.LikedUpdater | src/hooks/like/useMutateLike.js:71-146 | the step-by-step updater with the search loop computes `LikedUpdate` |
| LikeCache.UnlikeDropsPost | src/hooks/like/useMutateLike.js:75-83 | after an unlike no page holds the post, every other post stays on its page, each page is the page filtered by `RemovePosts`, and cursors are kept |
| LikeCache.UnlikeKeepsOrder | src/hooks/like/useMutateLike.js:80 | after an unlike, cut any page at any position: the posts kept from before the cut come before those kept from after it, so the remaining posts keep their order |
| LikeCache.LikedPostCarriesResponse | src/hooks/like/useMutateLike.js:92-141 | after a like every copy of the post in the liked list carries the response's count and flag |
| LikeCache.LikeAddsPostIff | src/hooks/like/useMutateLike.js:86-145 | after a like the list holds the post exactly when it already did or a copy was found and there is a first page; otherwise the entry is unchanged |
| LikeCache.LikeThenUnlikeRestores | src/hooks/like/useMutateLike.js:71-146 | liking a post the list did not hold and then unliking it gives back the original entry |
| LikeCache.DetailUpdate | src/hooks/like/useMutateLike.js:149-157 | an absent detail stays absent; a present one takes the response's count and flag |
| LikeCache.OnSuccess | src/hooks/like/useMutateLike.js:23-158 | the four writes in source order: the feed only when a category was given, own posts, liked posts from the updated own posts, then the detail; comments and commands unchanged |
| LikeCache.LikedStepIgnoresOrder | src/hooks/like/useMutateLike.js:111 | the liked-posts step gives the same result whether it reads the own-posts entry before or after that entry took the response |
| AppSlice.Reduce | src/slices/appSlice.js:32-71 | no action writes `editedPost`, and an action whose sign-in carries a username never leads from a signed-in state with a user to one without |
| AppSlice.ErrorOf | src/slices/appSlice.js:69 | `action.error.message` is stored as it is, so an `undefined` message leaves `error` `undefined` |
| AppSlice.ToggleFlipsFlagOnly | src/slices/appSlice.js:33-37 | `toggleCsrfState` flips only the CSRF flag, and twice is the identity |
| AppSlice.SetLoggedInUserFields | src/slices/appSlice.js:39-43 | `setLoggedInUser` signs in with the payload as user, whatever it is, and changes nothing else |
| AppSlice.LogoutUserFields | src/slices/appSlice.js:45-48 | `logoutUser` signs out and clears the user, nothing else |
| AppSlice.AuthThunkFields | src/slices/appSlice.js:52-70 | pending sets loading and clears the error; fulfilled signs in with the payload's `username` as it is; rejected signs out, keeps the user and stores the error's message, `undefined` included |
| AppSlice.EditedPostNeverWritten | src/slices/appSlice.js:32-71 | over any sequence of actions `editedPost` keeps its value |
| AppSlice.SignedInHasUserPreserved | src/slices/appSlice.js:32-71 | over any sequence of actions whose sign-ins carry a username, a signed-in state keeps a user |
| AppSlice.UndefinedUsernameSignsInWithoutUser | src/slices/appSlice.js:39-63 | both sign-in actions with an `undefined` username leave the store signed in with no user, so the hypothesis above is needed |
| AppSlice.InitialStateSignedOut | src/slices/appSlice.js:4-19 | the initial state is signed out, loading, with no user, no error and the flag off |
| AppSlice.AppStore.constructor | src/slices/appSlice.js:4-19 | a new store holds the initial state |
| AppSlice.AppStore.Dispatch | src/slices/appSlice.js:29-72 | dispatching an action replaces the state with the reducer's result |
| Effects.Requests | src/hooks/posts/useProcessPost.js:13-22 | a trace has no more requests than effects |
| Effects.RequestsMembers | src/hooks/posts/useProcessPost.js:13-22 | a request is among a trace's requests exactly when the trace sent it |
| Effects.RequestsAppend | src/hooks/posts/useProcessPost.js:30-32 | the requests of a concatenated trace are the concatenated requests |
| Effects.ApplyDispatches | src/hooks/like/useProcessLike.js:22 | running a trace's dispatches never writes `editedPost`, and keeps a signed-in state with a user when every sign-in it dispatches carries a username |
| Effects.ApplyDispatchesAppend | src/slices/appSlice.js:29-72 | running a concatenated trace is running one part after the other |
| Retry.NoOnError | src/hooks/auth/useMutateAuth.js:23-26 | a mutation without `onError` toggles nothing and throws nothing |
| Retry.Propagate | src/hooks/posts/useMutatePost.js:21-27 | `mutateAsync` fulfils with the server's value, or rejects with the error `onError` threw, or else the server's error |
| Retry.ErrorEffects | src/hooks/posts/useMutatePost.js:21-27 | `onError` sends no request and dispatches the toggle exactly when it toggles |
| Retry.MutateAsync | src/hooks/posts/useProcessPost.js:13-22 | one request; a success runs the callback, a failure runs `onError`; the outcome is `Propagate` |
| Retry.Submit | src/hooks/posts/useProcessPost.js:27-35 | one or two requests, two exactly on the CSRF literal with `retryCount` 0; the outcome is settled by the last attempt |
| Retry.RetryOnlyOnCsrfLiteral | src/hooks/comment/useProcessComment.js:14-21 | from `retryCount` 0 the request is repeated exactly when the first failure is the CSRF literal |
| Retry.SucceedsAtOnce | src/hooks/posts/useProcessPost.js:13-26 | an attempt the server accepts gives the request, its callback and the `then` effects, and fulfils with the server's value |
| Retry.SucceedsAfterOneCsrfFailure | src/hooks/comment/useProcessComment.js:14-21 | a CSRF failure followed by a success gives the trace send, toggle, wait 500, send, callback, and the success value |
| Retry.OtherFailurePropagates | src/hooks/comment/useProcessComment.js:20 | any other failure with a response is rethrown unchanged after one request |
| Retry.Detach | src/hooks/posts/useProcessPost.js:12-13 | a chain the handler does not return keeps its trace and leaves its rejection unhandled |
| CommentCache.AppendComment | src/hooks/comment/useMutateComment.js:20-25 | an absent list stays absent; a present one keeps its comments and gains the created one at the end |
| CommentCache.RemoveComments | src/hooks/comment/useMutateComment.js:48 | a comment is kept exactly when it was there and has another id |
| CommentCache.RemoveCommentsAbsent | src/hooks/comment/useMutateComment.js:48 | deleting an id the list does not hold changes nothing |
| CommentCache.RemoveCommentsAppend | src/hooks/comment/useMutateComment.js:48 | the filter distributes over concatenation, so it keeps the order |
| CommentCache.RemoveCommentsIdempotent | src/hooks/comment/useMutateComment.js:48 | deleting twice is deleting once |
| CommentCache.CreateThenDeleteRestores | src/hooks/comment/useMutateComment.js:20-50 | creating a comment with a fresh id and then deleting it gives back the original list |
| CommentCache.AfterDelete | src/hooks/comment/useMutateComment.js:43-51 | an absent list stays absent; a present one loses the deleted comment |
| CommentCache.OnCreateSuccess | src/hooks/comment/useMutateComment.js:20-25 | the post's comment list gains the created comment when it is cached; nothing else changes |
| CommentCache.OnDeleteSuccess | src/hooks/comment/useMutateComment.js:43-51 | the post's comment list loses the deleted comment when it is cached; nothing else changes |
| CommentCache.OnDeleteError | src/hooks/comment/useMutateComment.js:52-60 | a failure without a response makes the alert throw; otherwise nothing is rethrown and the flag is toggled exactly on the JWT or CSRF literal |
| PostCache.OnCreateSuccess | src/hooks/posts/useMutatePost.js:17-20 | invalidates `['posts']` and navigates to `/home`; no entry changes |
| PostCache.UpdateDetailKeyAsWritten | src/hooks/posts/useMutatePost.js:48 | the detail key read from `variables.id` is never the updated post's id |
| PostCache.OnUpdateSuccessAsWritten | src/hooks/posts/useMutatePost.js:46-50 | the body is stored under `['single', undefined]`, the post's own detail entry is unchanged, and the page goes to `/posts/undefined` |
| PostCache.OnUpdateSuccess | src/hooks/posts/useMutatePost.js:46-50 | the body replaces the updated post's detail entry and the page goes to that post |
| PostCache.UpdateRequest | src/hooks/posts/useMutatePost.js:31-45 | the id goes into the URL and the body holds exactly the six post fields |
| PostCache.DeleteDetailKeyAsWritten | src/hooks/posts/useMutatePost.js:67 | the key read from `variables.id` on the raw id string is never that id |
| PostCache.OnDeleteSuccessAsWritten | src/hooks/posts/useMutatePost.js:65-69 | invalidates `['posts']` and removes `['single', undefined]`: only an entry under an `undefined` id is dropped, and the deleted post's detail entry stays as it was |
| PostCache.OnDeleteSuccess | src/hooks/posts/useMutatePost.js:65-69 | invalidates `['posts']`, drops exactly the deleted post's detail entry, so it is no longer cached, and navigates to `/home` |
| PostCache.OnUpdateError | src/hooks/posts/useMutatePost.js:51-57 | the optional read never throws: the error is always rethrown, and the flag is toggled exactly on the CSRF literal |
| ProcessAuth.CheckUsernameAvailability | src/hooks/auth/useProcessAuth.js:15-25 | never rejects: a reply gives its availability and message, a failure gives its message as `error` |
| ProcessAuth.RegisterSubmit | src/hooks/auth/useProcessAuth.js:27-50 | check, then register, then login, each only after the previous one succeeded; a taken name rejects with the typed error; it succeeds exactly when all three succeed |
| ProcessAuth.RegisterThenLogin | src/hooks/auth/useProcessAuth.js:37-49 | a refused registration stops after one request; an accepted one is followed by the login, and the chain fulfils exactly when both succeed |
| ProcessAuth.TakenNameNeverRegisters | src/hooks/auth/useProcessAuth.js:31-36 | a taken name never reaches the register endpoint and rejects with type `USERNAME_UNAVAILABLE` |
| ProcessAuth.LoginSubmit | src/hooks/auth/useProcessAuth.js:52-66 | one or two login requests, two exactly on the CSRF literal with `retryCount` 0; the caller sees the last attempt's result |
| ProcessAuth.LoginFailurePropagates | src/hooks/auth/useProcessAuth.js:64 | a failed retry, or any other failure with a response, reaches the caller unchanged |
| ProcessAuth.LogoutOnErrorAsWritten | src/hooks/auth/useMutateAuth.js:83-89 | the alert throws without a response; otherwise nothing is rethrown and the flag is toggled exactly on the literal without a period |
| ProcessAuth.LogoutMissesCsrfExpiry | src/hooks/auth/useMutateAuth.js:86 | the server's CSRF-expiry error never toggles the flag on logout |
| ProcessAuth.LogoutOnError | src/hooks/auth/useMutateAuth.js:83-89 | the logout `onError` toggles the flag exactly on the server's CSRF literal |
| ProcessAuth.LogoutFlow | src/hooks/auth/useProcessAuth.js:68-75 | on success the three removals and the navigation to `/login` follow the request; a failed logout removes nothing |
| ProcessPost.Description | src/hooks/posts/useProcessPost.js:18 | `description.trim() \|\| null` is null exactly for a blank description, and otherwise the non-empty `Trim(description)` |
| ProcessPost.PayloadOf | src/hooks/posts/useProcessPost.js:14-22 | the payload takes the selected category, the trimmed description and the other fields as typed |
| ProcessPost.PostCreateSubmit | src/hooks/posts/useProcessPost.js:12-36 | the create request carries the store's user and the payload, one or two times, twice exactly on the CSRF literal with `retryCount` 0 |
| ProcessPost.PostUpdateSubmit | src/hooks/posts/useProcessPost.js:38-61 | the update request for the hook's post with the payload, one or two times, twice exactly on the CSRF literal with `retryCount` 0 |
| ProcessPost.CreateSuccessNavigatesHome | src/hooks/posts/useProcessPost.js:23-26 | a first-time success leaves nothing unhandled and ends on `/home` |
| ProcessPost.CreateFailureIsUnobserved | src/hooks/posts/useProcessPost.js:12-35 | a retry that fails leaves its error unhandled, since the handler does not return the chain |
| ProcessPost.PostDeleteSubmit | src/hooks/posts/useProcessPost.js:63-67 | the delete request is sent exactly when the dialog is confirmed |
| ProcessComment.CommentCreateSubmit | src/hooks/comment/useProcessComment.js:6-22 | the trimmed comment is sent once or twice, twice exactly on the CSRF literal with `retryCount` 0; a success resolves `undefined`, and a failure rejects with the last attempt's error |
| ProcessComment.Settle | src/hooks/comment/useProcessComment.js:11-13 | `.then(() => {})` keeps the trace, fulfils exactly when the chain did, and keeps the error |
| ProcessComment.SentCommentIsTrimmed | src/hooks/comment/useProcessComment.js:9 | every request sent carries the trimmed comment for the post, with no white space at its ends |
| ProcessComment.CommentDeleteSubmit | src/hooks/comment/useProcessComment.js:24-28 | the delete request is sent exactly when the dialog is confirmed |
| ProcessLike.LikeCatchAsWritten | src/hooks/like/useProcessLike.js:20-26 | the strict read throws without a response, so nothing is logged; on the JWT literal the creator is dispatched and the page goes to `/login`; otherwise only the log line |
| ProcessLike.LikeToggle | src/hooks/like/useProcessLike.js:11-28 | one or two toggle requests, two exactly on the CSRF literal with `retryCount` 0 |
| ProcessLike.OtherFailureCaught | src/hooks/like/useProcessLike.js:12-26 | a first failure with a response and another detail than the CSRF literal goes to the catch handler after one request, with no retry |
| ProcessLike.JwtExpiryKeepsUserSignedIn | src/hooks/like/useProcessLike.js:20-24 | on session expiry the creator is dispatched and the page goes to `/login`, but the store's state is unchanged |
| ProcessLike.NetworkFailureEscapes | src/hooks/like/useProcessLike.js:20 | a failure without a response leaves a TypeError unhandled and logs nothing |
| ProcessLike.LikeCatch | src/hooks/like/useProcessLike.js:20-26 | the catch handler dispatching the action: it never throws, always ends in the log line, and signs out on the JWT literal |
| ProcessLike.LikeToggleIntended | src/hooks/like/useProcessLike.js:11-28 | the same retry protocol, with no error ever left unhandled |
| ProcessLike.OtherFailureCaughtIntended | src/hooks/like/useProcessLike.js:12-26 | with the intended handler too, such a failure goes to the catch handler after one request and nothing is left unhandled |
| ProcessLike.JwtExpirySignsOut | src/hooks/like/useProcessLike.js:20-24 | with the intended handler a session expiry signs the user out and clears the user |
| RegisterPage.KeepNameChars | src/pages/users/Register.jsx:126 | the filter keeps exactly the characters of `[a-zA-Z0-9_.-]` and is no longer than its input |
| RegisterPage.Sanitised | src/pages/users/Register.jsx:126-128 | only `[a-z0-9_.-]`, at most 20 characters: the first 20 of the lowercased filtered input |
| RegisterPage.KeepNameCharsAppend | src/pages/users/Register.jsx:126 | the filter distributes over concatenation, so the kept characters keep their order |
| RegisterPage.KeepNameCharsOfNameChars | src/pages/users/Register.jsx:126 | a string of allowed characters passes the filter unchanged |
| RegisterPage.KeepNameCharsLower | src/pages/users/Register.jsx:126-127 | filtering and lowercasing commute |
| RegisterPage.LowerAppend | src/pages/users/Register.jsx:127 | lowercasing distributes over concatenation |
| RegisterPage.SanitisedIdempotent | src/pages/users/Register.jsx:126-128 | sanitising twice is sanitising once |
| RegisterPage.SanitisedPassesCharset | src/pages/users/Register.jsx:126-134 | a non-empty sanitised name never gets the length-limit or character-set message |
| RegisterPage.GatesAgree | src/pages/users/Register.jsx:41-62 | the scheduling gate and the check's own gate agree, and both are `validateUsername`'s verdict |
| RegisterPage.UsernameTakenMentionsUsed | src/pages/users/Register.jsx:101-107 | the message added for a taken name contains `'既に使用されています'` |
| RegisterPage.AddUsedError | src/pages/users/Register.jsx:98-102 | the list keeps its messages and gains the used-name message at the end |
| RegisterPage.ClearUsedErrors | src/pages/users/Register.jsx:103-108 | a message is kept exactly when it was there and does not contain the fragment |
| RegisterPage.FilterMessages | src/pages/users/Register.jsx:107 | `filter` keeps exactly the messages its test accepts, and only those |
| RegisterPage.FilterMessagesAppend | src/pages/users/Register.jsx:107 | `filter` distributes over concatenation, so it keeps the order of the kept messages |
| RegisterPage.FilterMessagesKeepsAll | src/pages/users/Register.jsx:107 | a list whose every message passes the test is kept as it is |
| RegisterPage.ClearUsedErrorsAppend | src/pages/users/Register.jsx:107 | the removal distributes over concatenation, so it keeps the order of the other messages |
| RegisterPage.ClearUsedErrorsKeepsOthers | src/pages/users/Register.jsx:107 | a list without a used-name message is kept as it is |
| RegisterPage.TakenThenAvailable | src/pages/users/Register.jsx:98-108 | a name reported taken and then available ends with the list it had before, less any used-name message |
| RegisterPage.Availability | src/pages/users/Register.jsx:76 | `response.isAvailable ?? null` is known exactly for a completed check |
| RegisterPage.CheckMessageAsWritten | src/pages/users/Register.jsx:78 | a non-empty server message is shown, otherwise 'チェック完了', including for a failed check |
| RegisterPage.CheckMessageFor | src/pages/users/Register.jsx:78-95 | 'チェックに失敗しました' exactly for a failed check; otherwise as written |
| RegisterPage.FailedCheckReadsComplete | src/pages/users/Register.jsx:75-95 | a check the server refused is shown as complete as written, and as failed when corrected |
| RegisterPage.ErrorsAfterCheck | src/pages/users/Register.jsx:98-109 | `false` appends the used-name message, `true` clears the used-name messages, and a failed check leaves the list alone |
| RegisterPage.SubmitErrorFor | src/pages/users/Register.jsx:219-225 | the typed error gives the used-name banner, otherwise the CSRF literal under `?.` gives the session banner, and anything else the generic one |
| RegisterPage.TakenNameBanner | src/pages/users/Register.jsx:219-220 | a taken name shows the used-name banner |
| RegisterPage.RegisterFailureBanner | src/pages/users/Register.jsx:221-225 | a register call refused for CSRF expiry shows the session banner; one without a response shows the generic banner |
| RegisterPage.ValidateForm | src/pages/users/Register.jsx:188-194 | the three validator calls give each validator's messages, and the form is valid exactly when all three are |
| RegisterPage.RegisterForm.constructor | src/pages/users/Register.jsx:14-35 | the page mounts with empty inputs, no check, empty error lists and no banner |
| RegisterPage.RegisterForm.HandleUsernameChange | src/pages/users/Register.jsx:122-141 | stores the sanitised value and its validator errors; the check is scheduled exactly when the value is valid; nothing else changes |
| RegisterPage.RegisterForm.StartCheck | src/pages/users/Register.jsx:40-68 | a short or invalid name clears the availability line and asks nothing; otherwise the line says the check is running |
| RegisterPage.RegisterForm.FinishCheckAsWritten | src/pages/users/Register.jsx:75-109 | the line takes the availability and the as-written message, and the error list is updated by `ErrorsAfterCheck` |
| RegisterPage.RegisterForm.FinishCheck | src/pages/users/Register.jsx:75-109 | the same update, with a failed check reported as failed |
| RegisterPage.RegisterForm.HandleSubmit | src/pages/users/Register.jsx:183-229 | `valid` is whether all three validators pass; with any failing the three lists are replaced and nothing is sent; otherwise the register chain runs and a rejection sets the banner; `isSubmitting` ends false; only the three lists, the banner and the flag change |
| RegisterPage.RegisterForm.ShowValidation | src/pages/users/Register.jsx:188-209 | the three validators run on the given fields; when any fails, each list becomes its validator's messages, otherwise the lists are kept |
| RegisterPage.RegisterForm.RunChain | src/pages/users/Register.jsx:212-225 | the chain's effects are `RegisterSubmit`'s; the banner stays empty exactly when the chain fulfils and shows the failure's message otherwise |
| RegisterPage.RegisterForm.ShowOutcome | src/pages/users/Register.jsx:212-225 | the banner stays empty exactly when the chain fulfils; a rejection shows the message for its error |

## Left out

- JSX rendering, the per-keystroke handlers outside the username field, and the other pages' inputs are presentation and are not modelled.
- Only the like handler's `console.error` is recorded, as `ConsoleError`. `alert` and `console.log` are not modelled, beyond the TypeError that the alert's strict read throws for an error without a response. So the like handler's session-expiry trace has no entry for its `console.log`.
- `setTimeout(500)` is recorded as the retry's `Wait`, `navigate` as `Navigate`, and the answer to `window.confirm` is a parameter. Timing itself, lodash `debounce(800)` included, is not modelled.
- The auth mutations' own `onSuccess` callbacks are marked by a `Callback` effect only. These are login's `setLoggedInUser` and redirect, and logout's `logoutUser()` and navigation to `/home`.
- TanStack's partial key matching is modelled for removals from the detail family only. `QueryClient.RemoveQueries` drops the detail entries whose key `['single', postId]` starts with the removed key, and logs the command. The only other removals are the logout flow's, which is modelled as a trace of `RemoveQueries` effects, not on the cache. `invalidateQueries` is logged with its literal key and changes no entry; which entries it marks stale is not modelled. Staleness, refetching and garbage collection are library behaviour and are not modelled.
- Page accumulation in the query hooks is not modelled. The cursor rule `last_evaluated_key ?? undefined` is taken as the meaning of `Page.lastEvaluatedKey`.
- The axios calls, the CSRF token fetch and header set-up, and the store and middleware configuration are network plumbing and are not modelled. The thunk middleware survives only as the `DispatchLogoutCreator` effect, which changes no state.
- Date formatting (dayjs) is a foreign library and is not modelled.
- Strings are sequences of code points. `length` in the source counts UTF-16 units, which agree for every character below U+10000.
- Strings.LowerChar, Strings.Lower: lowercasing covers ASCII only; `toLowerCase` also maps other capitals. This is exact on the sanitised username and the reserved words, which are ASCII. The password similarity check (src/utils/validation.js:103) lowercases the raw password, so it can differ there: a Kelvin sign (U+212A) or `İ` (U+0130) in the password lowercases to `k` or `i̇` in JavaScript and stays as it is in the model.
- The cache findings on src/hooks/posts/useMutatePost.js:48-49 and :67 rest on TanStack Query v4's positional-key `invalidateQueries`/`removeQueries` API, with partial key matching; the repository does not pin the library version, so that API is assumed.
- LikeCache.LikedUpdate: when no cached copy of a newly liked post exists, the liked list is left unchanged; nothing is invalidated or refetched.
- `description.trim()` assumes the form always holds a string, as both post forms initialise it to `''`.
- The registration page's branch for a falsy check result and its `catch` are unreachable. `checkUsernameAvailability` always resolves to an object. Only the reachable branches are modelled.

## Findings

| source | as written | input that shows it | evidently intended | confidence | as-written member | corrected member |
|---|---|---|---|---|---|---|
| src/hooks/posts/useMutatePost.js:48-49 | `variables.id` on `{ postId, ... }` is `undefined`, so the body goes to `['single', undefined]` and the page to `/posts/undefined`. The handler's own ``navigate(`/posts/${postId}`)`` (src/hooks/posts/useProcessPost.js:50) follows at once, as `PostUpdateSubmit`'s trace shows. What stays visible is the stale `['single', postId]` entry, fresh for one minute (src/hooks/posts/useQuerySinglePost.js:16), and one extra history entry | update of post `p1` with any form | write `['single', 'p1']` and go to `/posts/p1` | high, not executed | PostCache.OnUpdateSuccessAsWritten | PostCache.OnUpdateSuccess |
| src/hooks/posts/useMutatePost.js:67 | `variables.id` on the raw id string is `undefined`, so the deleted post's detail entry is never removed | delete of post `p7` | remove `['single', 'p7']` | high, not executed | PostCache.OnDeleteSuccessAsWritten | PostCache.OnDeleteSuccess |
| src/hooks/like/useProcessLike.js:22 | `dispatch(logoutUser)` passes the action creator, which the thunk middleware calls and whose action it drops, so the user stays signed in | a like rejected with detail `'The JWT has expired'` | `dispatch(logoutUser())` signs the user out | high, not executed | ProcessLike.JwtExpiryKeepsUserSignedIn | ProcessLike.JwtExpirySignsOut |
| src/hooks/like/useProcessLike.js:20 | the strict `err.response.data.detail` throws inside `catch` for an error without a response, so the rejection escapes and nothing is logged | a like that fails with a network error | optional chaining, as on line 13 | medium, not executed | ProcessLike.NetworkFailureEscapes | ProcessLike.LikeToggleIntended |
| src/hooks/auth/useMutateAuth.js:86 | the logout `onError` compares with `'The CSRF token has expired'` without the period, so the server's expiry never toggles the flag | a logout rejected with detail `'The CSRF token has expired.'` | the literal with the period, as everywhere else | high, not executed | ProcessAuth.LogoutMissesCsrfExpiry | ProcessAuth.LogoutOnError |
| src/pages/users/Register.jsx:78 | a failed check resolves `{ error }`, whose missing `message` falls back to 'チェック完了' | an availability check the server rejects | 'チェックに失敗しました' | medium, not executed | RegisterPage.FailedCheckReadsComplete | RegisterPage.RegisterForm.FinishCheck |
