# SigmaLTD social feed in Dafny

This project models the rule-bearing core of the SigmaLTD social feed: an Express/MySQL
backend (`backend/server.js`) and its React Native client. It proves properties of that
model.

**Backend.** The tables (Nsu, Users, Post, Comment, UserLikedPost, UserLikedComment, Tag,
UserFollowedTag) are the fields of the class `ServerStore.Store`. Each request handler is
a method on that class. Each method is proved against the pure effects and listings in
`ServerTables`, `ServerTags` and `ServerPaging`. Those modules cover:

- the pagination clamp, offset and page count;
- the bearer-token regular expression of the authentication middleware;
- the registration, delete and create-post checks;
- tag normalisation and splitting, and the SQL test that decides whether a post carries
  a followed tag;
- the like, unlike, follow, unfollow and owner-only delete effects.

Three behaviours of the code as written are reproduced, not fixed:

- registration throws after both inserts and answers 500;
- the profile endpoint pages the requester's own posts;
- like and unlike move the counter whether or not a like row existed.

**Client.**

- `ScrollList` is the infinite-scroll machine that SuperScrollList and the Feed,
  Following and GlobalChat screens share. It is one class, and a variant selects the
  reply field and the error handler.
- `CommentThread` models the comment list of CommentScreen and PostDetailScreen.
- `CreatePost` models both composers. The `.js` and `.tsx` files differ, and a flavour
  parameter selects between them.
- `PostDisplay` models the post card, and `CommentView` the comment bubble.
- `TagChip` models `Tag.js` and `Tag.tsx`.
- `Login` models the sign-in screen, and `Database` the request helpers.
- `ThemeStore` models the Redux theme slice.

**Cross-module properties.** `Protocol` ties client and server together:

- the Authorization header round-trips through the server's regular expression;
- a logged-out client is sent to Login;
- scrolling a listing reads every row once, in order;
- the tag string and media paths survive a trip through the stored columns;
- sign-up never completes as written.

Two conventions hold throughout:

- On the client, network, storage and clock outcomes are parameters: an `apiOk` flag, an
  `Outcome` or a thrown message. On the server, the bcrypt hash and the token verifier are
  parameters, and database queries are taken to succeed (see "## Left out").
- Strings are `seq<char>`. The module `JsText` gives JavaScript's `trim`, `split`,
  `join` and `parseInt` their ECMAScript meaning.

Where the documented behaviour and the code disagree, the model follows the code:

- In the create-post reply, the `tags` field is `tagsString ? tagsString.split(',') : []`.
  So whitespace-only tags give an empty list, not a list holding one empty string.
- Paged screens in FeedScreen, FollowingScreen and GlobalChatScreen compare the thrown
  message with the JSON body `{"error":"..."}`. The message is that body, not the bare
  error text, because `frontend/database.js` throws `new Error(await response.text())`.

## Model

| member | source | states |
|---|---|---|
| ServerPaging.ClampPage | backend/server.js:160 | the page is at least 1; a missing, unparsable, zero or negative page is 1; any other page is kept |
| ServerPaging.ClampPageSize | backend/server.js:161 | the size is in 1..100: missing, unparsable or zero gives 10, negative gives 1, above 100 gives 100, otherwise it is kept |
| ServerPaging.Offset | backend/server.js:162 | the offset is a non-negative multiple of the page size whose quotient is page - 1 |
| ServerPaging.TotalPagesIsLeast | backend/server.js:170 | the page count is 0 exactly for no rows and otherwise the least n with n * pageSize >= total |
| ServerPaging.Window | backend/server.js:165-167 | LIMIT/OFFSET yields at most `limit` rows, each the row at offset + i, and exactly as many as remain |
| ServerPaging.PageNonEmptyIff | backend/server.js:160-170 | a page has rows exactly when its number is at most totalPages |
| ServerPaging.FirstPagesArePrefix | backend/server.js:165-167 | pages 1..n together are the first n * pageSize rows, in order, without gaps or repeats |
| ServerPaging.AllPagesCoverRows | backend/server.js:165-170 | reading pages 1..totalPages returns every row exactly once, in order |
| ServerStore.ListPage | backend/server.js:159-175 | a list reply has page >= 1, size in 1..100, total = row count, at most pageSize rows, each the row at offset + i, and rows exactly when page <= totalPages |
| ServerAuth.BearerTokenIsGreedyMatch | backend/server.js:58-59 | a token is extracted exactly when the header matches `^Bearer\s+(.+)$` case-insensitively, and it is the capture of the longest `\s+` |
| ServerAuth.SpaceRun | backend/server.js:59 | the white-space run after the scheme is all white space and is followed by a non-space |
| ServerAuth.CaptureWithinRun | backend/server.js:59 | `\s+` cannot extend past the white-space run |
| ServerAuth.NoCaptureOverTerminator | backend/server.js:59 | `(.+)$` cannot span a line terminator |
| ServerTables.Authenticate | backend/server.js:57-79 | a request is authorized exactly when a bearer token is extracted, the verifier accepts it and its user exists, and then as the verified user; a token the verifier rejects gives 403, and every other refusal gives 401 |
| ServerTables.MissingTokenRefusedFirst | backend/server.js:61-63 | a missing or non-matching header gets 401 with the missing-token error whatever the verifier and user table are |
| ServerTables.RegisterRefusal | backend/server.js:90-102 | a request is accepted only when all five fields are non-empty, the group has at most 10 characters and the email is not taken |
| ServerTables.RegisterKeepsEmailsUnique | backend/server.js:99-110 | inserting an accepted request keeps emails unique, and the same email is then refused with "Email already exists" |
| ServerTables.RegisterNeverSucceeds | backend/server.js:119-120 | as written no registration is answered with a token: every accepted one is answered 500 |
| ServerTables.IntendedRegisterAnswersStoredId | backend/server.js:104-119 | the intended reply refuses what the written one refuses and otherwise returns the token and the id both rows were stored under |
| ServerTables.Find | backend/server.js:262-263 | a found row has the id asked for; no row is found only when no row has the id |
| ServerTables.FindIsFirst | backend/server.js:262-263 | a found row is a stored row: the first row of the table with the id asked for |
| ServerTables.FindAbsent | backend/server.js:262-263 | an id held by no row is not found |
| ServerTables.BumpLikes | backend/server.js:476 | `likes = likes + delta WHERE id = ?` moves only the matching rows' counters and keeps ids, columns and order |
| ServerTables.BumpLikesInverse | backend/server.js:489 | a decrement after the same increment restores the table |
| ServerTables.FindAfterBump | backend/server.js:476 | the row read back after the update is the old row with its counter moved |
| ServerTables.LikesAfterBump | backend/server.js:476 | the counter read back moves by exactly delta, and a missing row stays missing |
| ServerTables.LikeMovesCounterByOne | backend/server.js:472-489 | every like call adds exactly 1 and every unlike call subtracts exactly 1, and the like pair is then present or absent |
| ServerTables.RepeatedLikeDrifts | backend/server.js:472-476 | a repeated like leaves the pairs unchanged but raises the counter, so the counter no longer equals the number of likers |
| ServerTables.Without | backend/server.js:190-193 | the delete keeps exactly the rows with other ids |
| ServerTables.WithoutSubsequence | backend/server.js:190-193 | the delete keeps the ids in increasing order |
| ServerTables.WithoutRemovesOne | backend/server.js:190-195 | on unique ids, deleting a present id removes exactly one row, and deleting an absent id removes none |
| ServerTables.Follow | backend/server.js:556-561 | after a follow the tag name exists |
| ServerTables.FollowAddsName | backend/server.js:556-566 | a follow keeps the tag tables valid and adds exactly that name to the user's followed tags (the names `/followed-tags` returns); other users' tags do not change |
| ServerTables.FollowIdempotent | backend/server.js:556-566 | following twice is following once (duplicate keys are no-ops) |
| ServerTables.UnfollowRemovesName | backend/server.js:577-584 | an unfollow keeps the tables valid and removes exactly that name from the user's followed tags |
| ServerTables.UploadPaths | backend/server.js:215-227 | every path starts with `/uploads/` and is the path of some usable upload; there are no more paths than uploads, and exactly one per upload when every upload is usable |
| ServerTables.UploadPathsOne | backend/server.js:219-225 | one upload contributes `/uploads/` + its name when it has data and a name, and nothing otherwise |
| ServerTables.UploadPathsAppend | backend/server.js:218-226 | the paths of two runs of uploads are the paths of the first followed by those of the second, so with UploadPathsOne the list holds one path per usable upload, in order |
| ServerTags.TrimAll | backend/server.js:229 | each piece is trimmed, and nothing is added or removed |
| ServerTags.StoredTags | backend/server.js:229 | the stored tags column is null exactly when the input tags are missing or empty |
| ServerTags.NormalizedPieces | backend/server.js:229 | the comma pieces of the stored tag string are the input's pieces, each trimmed |
| ServerTags.NormalizeIdempotent | backend/server.js:229 | normalising twice equals normalising once |
| ServerTags.TrimAllIdempotent | backend/server.js:229 | trimming the pieces twice equals trimming them once |
| ServerTags.TrimAllHasNoComma | backend/server.js:229 | trimming never introduces a comma into a piece |
| ServerTags.PieceInContext | backend/server.js:426-432 | every comma piece of a post's tags satisfies the SQL match condition |
| ServerTags.MatchIsPiece | backend/server.js:426-432 | a string satisfying the condition for a comma-free name has that name among its pieces |
| ServerTags.InfixIsPiece | backend/server.js:430 | a `,name,` occurrence makes the name a piece |
| ServerTags.TagMatchesIffMember | backend/server.js:426-432 | for a comma-free name the SQL condition holds exactly when the name is one of the post's tags; NULL tags match only the empty name |
| ServerStore.Newest | backend/server.js:166 | `ORDER BY id DESC` lists the same rows in reverse order |
| ServerStore.PostsBy | backend/server.js:392-393 | a post is selected exactly when it is stored and was created by the given user |
| ServerStore.PostsByAppend | backend/server.js:392-393 | the selection distributes over concatenation, so the profile listing keeps the table's order |
| ServerStore.FollowingPosts | backend/server.js:420-433 | a post is selected exactly when it is stored and the `EXISTS` test finds a followed tag that it matches |
| ServerStore.FollowingPostsAppend | backend/server.js:420-433 | the selection distributes over concatenation, so the following feed keeps the table's order |
| ServerStore.FollowsTagIffTagged | backend/server.js:420-433 | a stored post is in the following feed exactly when one of its comma-separated tags is a tag the user follows (a post without tags only through the empty tag); the `EXISTS` test holds under the same condition |
| ServerStore.CreatedTagsArePieces | backend/server.js:229-243 | the create-post reply's tag list is the input's comma pieces, trimmed |
| ServerStore.StoredImagesReadBack | backend/server.js:230-268 | comma-free image paths joined by create-post are split back unchanged by `/post/:id` |
| ServerStore.CollectImagePaths | backend/server.js:215-227 | the upload loop collects exactly the paths of the usable uploads, in order |
| ServerStore.Store.constructor | backend/server.js:86-600 | all tables start empty and valid |
| ServerStore.Store.Register | backend/server.js:86-121 | a refused request changes nothing; an accepted one inserts the Nsu and Users rows under the next id, keeps emails unique, and is answered 500 |
| ServerStore.Store.DeletePost | backend/server.js:182-203 | a missing or non-positive id gives 400; the requester's own post is removed with 200 and exactly one row goes; otherwise 404 and nothing changes |
| ServerStore.Store.CreatePost | backend/server.js:206-253 | no content and no media gives 400 and no insert; otherwise the row is appended under the next id with the joined upload paths, normalised tags and the anonymous user 2 when asked, and the 201 reply carries them |
| ServerStore.Store.GetPost | backend/server.js:256-273 | an unknown or unparsable id gives 404; otherwise the row with tags and images split on commas |
| ServerStore.Store.ListPosts | backend/server.js:159-179 | the reply is the clamped page of all posts, newest first |
| ServerStore.Store.ListComments | backend/server.js:325-345 | the reply is the clamped page of all comments, newest first |
| ServerStore.Store.UserProfile | backend/server.js:374-409 | an unknown user gives 404 with no profile and no listing; otherwise the user's displayed name and picture (never the password hash) and a page of the requester's own posts, whichever user was asked for |
| ServerStore.Store.Following | backend/server.js:412-465 | the reply is a page of the posts matching a followed tag, newest first, and every row matches one |
| ServerStore.Store.LikePost | backend/server.js:468-482 | the like pair is inserted, the counter is raised by one, the row is read back, and nothing else changes |
| ServerStore.Store.UnlikePost | backend/server.js:484-495 | the like pair is deleted, the counter is lowered by one, and nothing else changes |
| ServerStore.Store.LikeComment | backend/server.js:511-525 | the comment like pair is inserted, the counter is raised by one, and nothing else changes |
| ServerStore.Store.UnlikeComment | backend/server.js:538-549 | the comment like pair is deleted, the counter is lowered by one, and nothing else changes |
| ServerStore.Store.FollowTag | backend/server.js:552-571 | the tag tables become the follow effect, the user's followed names gain the name, and nothing else changes |
| ServerStore.Store.UnfollowTag | backend/server.js:573-588 | the user's followed names lose the name, an unknown tag changes nothing, and nothing else changes |
| ScrollList.Initial | frontend/components/SuperScrollList.js:20-25 | the list starts with no data, page 1, not loading, and more to load |
| ScrollList.Begin | frontend/components/SuperScrollList.js:33-36 | a fetch does nothing while loading or when nothing is left; otherwise only isLoading is set |
| ScrollList.LoadMore | frontend/components/SuperScrollList.js:54-61 | the page advances by one only when not loading and more remains |
| ScrollList.LoadedPageUpdatesData | frontend/components/SuperScrollList.js:38-45 | page 1 replaces the data; a later page is appended after the old data, which is kept; hasMore records whether the page had items; loading ends |
| ScrollList.MissingFieldEndsPaging | frontend/components/SuperScrollList.js:39 | a reply without `posts` (`comments` for the chat) counts as an empty page and ends paging |
| ScrollList.FailureKeepsData | frontend/components/SuperScrollList.js:46-50 | a failed load keeps data, page and hasMore, and clears isLoading unless the handler throws |
| ScrollList.FailureReenablesLoading | screens/FeedScreen.js:47-54 | every handler except GlobalChatScreen's as written lets the list load again after any failure |
| ScrollList.FailureRedirects | screens/FeedScreen.js:47-54 | SuperScrollList sends every failure to Login; the screens go to Login exactly on the missing-token body |
| ScrollList.GlobalChatStuckAfterAuthError | frontend/screens/GlobalChatScreen.js:34-40 | as written, the missing-token answer leaves the chat loading forever, with no token removed |
| ScrollList.PageMonotone | screens/FollowingScreen.js:57-64 | the page never decreases and grows by exactly one per accepted load-more |
| ScrollList.ScrollList.constructor | screens/FeedScreen.js:19-26 | the state is the initial one |
| ScrollList.ScrollList.StartFetch | screens/FeedScreen.js:34-39 | the state becomes Begin, and the current page is requested exactly when a fetch may start |
| ScrollList.ScrollList.CompleteFetch | frontend/screens/GlobalChatScreen.js:25-41 | the state becomes Finish of the outcome, and a failure has its handler's navigation and token effect |
| ScrollList.ScrollList.HandleLoadMore | frontend/screens/GlobalChatScreen.js:44-51 | the page is advanced and the next page requested exactly when not loading and more remains |
| CommentThread.IndexOf | frontend/screens/CommentScreen.js:115 | the result is -1 exactly when no comment has the id, and otherwise the first position holding it |
| CommentThread.Flip | frontend/screens/CommentScreen.js:119-127 | likedByMe flips; likes moves by -1 when it was liked and by +1 otherwise; id and text are kept |
| CommentThread.ToggleFrame | screens/PostDetailScreen.js:119-134 | a toggle keeps length, order and every other comment; an absent id or a failed call changes nothing |
| CommentThread.ToggleTwiceRestores | frontend/screens/CommentScreen.js:119-127 | two successful toggles of a comment restore the list |
| CommentThread.IndexOfAfterUpdate | frontend/screens/CommentScreen.js:115-129 | flipping the found comment does not move the first occurrence of its id |
| CommentThread.PayloadSpec | frontend/screens/CommentScreen.js:91-95 | nothing is sent exactly for blank text with no image; otherwise the trimmed text and the first selected image |
| CommentThread.Thread.constructor | frontend/screens/CommentScreen.js:55 | the loaded comments, an empty input and selection, and the minimum height |
| CommentThread.Thread.FindIndex | screens/PostDetailScreen.js:120 | the loop finds the first position of the id, or -1 when it is absent |
| CommentThread.Thread.ToggleLike | screens/PostDetailScreen.js:116-138 | the matched comment is flipped on success; the unlike or like call follows its liked state; no call for an absent id; the input is untouched |
| CommentThread.Thread.SendComment | frontend/screens/CommentScreen.js:90-110 | the payload is sent unless blank; on a reply the comment is appended last and the input and selection are cleared |
| CommentThread.Thread.PickImage | screens/PostDetailScreen.js:77-92 | a picked image replaces the selection with its `data:image/jpeg;base64,` URI, so at most one image is selected |
| CommentThread.Thread.SetText | frontend/screens/CommentScreen.js:178 | only the text changes |
| CommentThread.Thread.ContentSizeChanged | frontend/screens/CommentScreen.js:183-184 | the input height follows the content and is never below 40 |
| CreatePost.InitialForm | frontend/components/CreatePost.js:19-32 | the form starts with one empty tag input, no content and no media, enabled |
| CreatePost.TagArray | frontend/components/CreatePost.js:86-88 | there are no more tags than inputs |
| CreatePost.TagArrayTrimmed | components/CreatePost.tsx:104-106 | no tag is empty and every tag is already trimmed |
| CreatePost.TagArrayAppend | frontend/components/CreatePost.js:86-88 | the tags keep the order of their inputs |
| CreatePost.TagArrayOne | frontend/components/CreatePost.js:86-88 | a blank input contributes nothing; any other input contributes itself trimmed |
| CreatePost.Extension | frontend/components/CreatePost.js:100 | the extension is never empty |
| CreatePost.ExtensionOfSubtype | frontend/components/CreatePost.js:100 | the extension is the MIME subtype after '/', or "jpg" without one |
| CreatePost.FileNameOfSubtype | components/CreatePost.tsx:117-118 | the file name is `type-time-index` followed by "." and the subtype |
| CreatePost.Uploads | frontend/components/CreatePost.js:90-109 | there is one upload per media item |
| CreatePost.UploadsPointwise | components/CreatePost.tsx:108-125 | upload i is named after item i, its index and its clock reading, and carries its MIME type and data |
| CreatePost.Picked | components/CreatePost.tsx:86-90 | the URI is kept; `.js` types every item as an image; `.tsx` types it a video exactly for a video asset; the MIME type is never empty |
| CreatePost.PickedAll | frontend/components/CreatePost.js:68-72 | every asset is mapped, in order |
| CreatePost.SuccessResetsForm | frontend/components/CreatePost.js:120-126 | a successful submit empties content, media and inputs, prepends the post, and (in `.js`) clears the error and re-enables the buttons |
| CreatePost.TsxSuccessReportsTypeError | components/CreatePost.tsx:32 | as written a successful `.tsx` submit shows the navigate TypeError and does not navigate |
| CreatePost.TsxIntendedNavigates | components/CreatePost.tsx:136-141 | with destructured props a successful submit navigates and leaves no error |
| CreatePost.BlankSubmitKeepsForm | components/CreatePost.tsx:96-100 | a blank submit keeps the form and sets the error; only `.js` re-enables the buttons |
| CreatePost.Composer.constructor | components/CreatePost.tsx:33-44 | the composer starts in the initial form, which is valid |
| CreatePost.Composer.HandleInputChange | frontend/components/CreatePost.js:34-38 | only the indexed input changes, and the form stays valid |
| CreatePost.Composer.AddInput | frontend/components/CreatePost.js:40-44 | one empty input is appended only below 4 inputs, so there are always 1..4 |
| CreatePost.Composer.ChangeText | frontend/components/CreatePost.js:169-173 | edits longer than 10000 characters are ignored, so the content stays within 10000 |
| CreatePost.Composer.PickMedia | frontend/components/CreatePost.js:59-75 | the picked items are appended after the existing media unless the pick was cancelled |
| CreatePost.Composer.Submit | frontend/components/CreatePost.js:77-135 | a blank submit posts nothing; otherwise the payload is the trimmed content, the joined tags and the uploads; the new state and the navigation follow the outcome |
| PostDisplay.Reverse | components/Post.js:187 | the result is the input reversed |
| PostDisplay.ShownTags | components/Post.js:184-187 | at most 4 tags are shown: the first four pieces, the fourth first, and none when the row is hidden |
| PostDisplay.ShownTagsAgree | components/Post.js:187 | a stored tag string and its split array show the same tags |
| PostDisplay.DropEmpty | components/Post.js:148 | `filter(Boolean)` keeps exactly the non-empty elements |
| PostDisplay.DropEmptyKeepsFull | components/Post.js:148 | filtering a list without empty elements changes nothing |
| PostDisplay.MediaOfStoredPaths | components/Post.js:148 | the media listed from a stored image column are exactly the joined paths, in order |
| PostDisplay.IsVideoIffExtension | components/Post.js:220 | an item is a video exactly when it ends in ".mp4", ".mov" or ".m4v" |
| PostDisplay.AnonymousHidesCreator | components/Post.js:174 | an anonymous post shows "Anonymous" whoever created it; others show the creator's name |
| PostDisplay.DeleteOnlyOwn | components/Post.js:113-128 | only the viewer's own post is deleted, otherwise an alert; the list refreshes exactly on a reported success |
| PostDisplay.AfterLikeMoves | components/Post.js:97-111 | a successful toggle flips liked and moves the count by one in that direction; a failed one changes nothing |
| PostDisplay.LikeTwiceRestores | components/Post.js:97-111 | like then unlike restores the card |
| PostDisplay.PostCard.constructor | components/Post.js:36 | the card starts with the post's liked flag and count |
| PostDisplay.PostCard.HandleLike | components/Post.js:97-111 | unlike is called when liked and like otherwise, and the state becomes AfterLike |
| CommentView.LikeCount | frontend/components/Comment.js:52 | the count is the number of like rows, 0 exactly for none |
| CommentView.ImageUrls | frontend/components/Comment.js:41-44 | each URL is BASE_URL followed by the stored path, and there are none without images |
| CommentView.UrlsOf | frontend/components/Comment.js:44 | each path is prefixed with BASE_URL, in order |
| CommentView.CommentCard.constructor | frontend/components/Comment.js:11-12 | no likes, not liked |
| CommentView.CommentCard.GetLikes | frontend/components/Comment.js:16-29 | the rows are stored, and likedByMe is true exactly when some row belongs to the current user |
| TagChip.LabelShape | frontend/components/Tag.js:97 | the label is the tag's first 20 characters, or "unknown" for an empty tag, after a '#' in Tag.js only |
| TagChip.Chip.constructor | components/Tag.tsx:6 | a chip starts not followed |
| TagChip.Chip.CheckFollowStatus | frontend/components/Tag.js:18-28 | followed becomes whether the followed tags include the tag; a failed request leaves it |
| TagChip.Chip.Press | components/Tag.tsx:12-24 | unfollow when followed and follow otherwise; followed is negated only on success; the refresh runs after (with the pre-toggle state in Tag.tsx, only when given in Tag.js) |
| Login.SubmitCalls | frontend/screens/LoginScreen.js:46-53 | login is called with the entered credentials; register exactly when the sign-up gate passes; otherwise an alert and no call |
| Login.SubmitNavigates | frontend/screens/LoginScreen.js:43-58 | the screen moves to Main whenever nothing throws, a refused sign-up included; a thrown message is kept, and earlier errors are cleared |
| Login.LoginScreen.constructor | frontend/screens/LoginScreen.js:14-20 | login mode, empty fields, no error |
| Login.LoginScreen.HandleSubmit | frontend/screens/LoginScreen.js:42-60 | the result is SubmitOf, and only the error changes |
| Login.LoginScreen.SwitchMode | frontend/screens/LoginScreen.js:113-121 | the mode flips and the error and all five fields are cleared |
| Database.AuthHeadersShape | frontend/database.js:13-25 | Content-Type is JSON; Authorization is present exactly for a usable token and is then "Bearer " + token |
| Database.PairsOf | frontend/database.js:131 | each query part gives one pair |
| Database.ListQueryReadsBack | frontend/database.js:131 | a list request's query reads back as the requested page and pageSize 10 |
| Database.TokenStorage.constructor | frontend/database.js:8-10 | the storage holds the given token |
| Database.TokenStorage.Headers | frontend/database.js:13-25 | the headers are AuthHeaders of the stored token and carry a credential exactly for a usable one |
| Database.TokenStorage.SignIn | frontend/database.js:32-54 | the reply's token is stored, and a refused call stores nothing |
| Database.TokenStorage.Logout | frontend/database.js:56-64 | the token is gone whether or not the server call succeeds, and no credential is sent afterwards |
| ThemeStore.InitialIsDark | redux/store.js:6-14 | the store starts dark with the light and dark colour tables |
| ThemeStore.ReduceEffect | redux/store.js:14-21 | SET_THEME sets current and keeps the colours; any other action returns the state |
| ThemeStore.SetThemeLastWins | redux/store.js:29-32 | setting a theme twice equals setting it once, and the last setting wins |
| ThemeStore.ReduceAllEffect | redux/store.js:14-21 | over any run of actions the colours never change and the theme is the last one set |
| ThemeStore.ReduceAllSnoc | redux/store.js:14-21 | dispatching one more action reduces the state reached so far |
| JsText.TrimIsSlice | frontend/components/CreatePost.js:86-88 | trim removes exactly the leading and trailing white space |
| JsText.TrimEmptyIffAllSpace | frontend/components/CreatePost.js:79 | a string trims to empty exactly when it is all white space |
| JsText.TrimIdempotent | backend/server.js:229 | trimming twice equals trimming once |
| JsText.JoinSplit | backend/server.js:267 | joining a string's comma pieces gives the string back |
| JsText.SplitJoin | backend/server.js:243 | splitting comma-free pieces joined by commas gives the pieces back |
| JsText.ParseIntDecimal | backend/server.js:160 | parseInt reads a page number written in decimal back as that number |
| Protocol.AuthHeaderRoundTrip | frontend/database.js:22 | the server's regex recovers exactly a token that has no leading white space and no line break |
| Protocol.NoTokenRefused | backend/server.js:61-63 | a client without a usable token is refused 401 whatever the server's verifier and users |
| Protocol.LoggedOutGoesToLogin | screens/FeedScreen.js:49-51 | the screens' compared message is the server's missing-token body, so a logged-out Feed or Following screen goes to Login |
| Protocol.ServerReadsRequestedPage | backend/server.js:160-167 | the server pages with exactly the page and size the client asks for |
| Protocol.RoundLoadsPage | frontend/components/SuperScrollList.js:33-61 | a round loads page `page` of the listing, replaces or appends it, and advances only after a non-empty page |
| Protocol.RoundReadsNextPage | frontend/components/SuperScrollList.js:33-61 | a screen that has read n pages has read n + 1 after one more round |
| Protocol.ScrollReadsListing | screens/FollowingScreen.js:34-64 | after n rounds a screen holds the first n pages in order, and stops after an empty page |
| Protocol.ScrollLoadsEverything | screens/FeedScreen.js:34-64 | paging through a listing loads exactly its rows and then stops |
| Protocol.TagArrayKeepsOut | frontend/components/CreatePost.js:86-88 | no tag holds a character that no input holds |
| Protocol.TrimAllKeepsTrimmed | backend/server.js:229 | trimming already trimmed pieces changes nothing |
| Protocol.TagPayloadStoredAsIs | backend/server.js:229-243 | for comma-free inputs the server stores the composer's tag string unchanged and replies with the composer's tag list |
| Protocol.UploadPathsKeepOut | backend/server.js:220 | no upload path holds a character absent from the prefix and the names |
| Protocol.UploadPathsUsable | backend/server.js:217-227 | the recorded paths are non-empty and, for comma-free names, comma-free |
| Protocol.CardShowsUploads | components/Post.js:148 | a card shows exactly the recorded media, in order, whether from the stored row or the create-post reply |
| Protocol.VideoUploadPlays | components/CreatePost.tsx:117-118 | a video with subtype mp4, mov or m4v is uploaded under a name the card plays as video |
| Protocol.QuicktimeNotVideo | components/Post.js:220 | a ".quicktime" name is not recognised as video |
| Protocol.QuicktimeUploadShownAsImage | components/CreatePost.tsx:117-118 | a video with subtype quicktime is uploaded under a name the card shows as an image |
| Protocol.SignUpNeverCompletes | frontend/screens/LoginScreen.js:49-58 | as written a sign-up that passes the gate never reaches Main, and the screen shows the server's error body |
| Protocol.IntendedSignUpCompletes | frontend/screens/LoginScreen.js:49-58 | with the intended reply, a sign-up reaches Main exactly when the server accepts it, and otherwise shows the refusal |

## Left out

- Database, hashing and tokens: the MySQL pool, bcrypt and JWT signing and verification are opaque. The bcrypt hash is a parameter of `Register`, and token verification is the `verify` function given to `Authenticate`.
- Uploads and I/O: writing uploaded files, AsyncStorage reads, `fetch`, FileReader and base64 conversion are left out. Their results are parameters: `apiOk`, `Outcome`, a thrown message, a base64 string.
- Clock: `Date.now()` in upload names is a `time` parameter.
- Collation and LIKE: the following-posts SQL and the `/register` email lookup (`SELECT * FROM Nsu WHERE email = ?`) are read with exact string equality. MySQL compares under the column's collation, which by default ignores case, so the source refuses "Bob@x.com" after "bob@x.com" where the model accepts it. `%`/`_` wildcards inside tag names also depend on the database.
- ServerTables.RegisterRefusal and ServerTables.RegisterKeepsEmailsUnique: "the email is taken" and "emails stay unique" mean exact string equality, not equality under the database collation.
- Row order: `ORDER BY createdAt DESC` is taken to equal id order.
- Auto-increment ids: the store assigns the next integer.
- Timing: polling intervals, `mounted` flags and request races are left out. Each handler is modelled as one atomic step after its awaited call.
- Database failures: driver and connection errors, which every handler's `catch` answers with 500 "Database error: …", are not modelled on the server; each query is taken to succeed. The one 500 that is modelled is registration's, whose cause is in the handler itself.
- ServerStore.Store.CreatePost: `None` for `content` stands for an explicit JSON `null`. A body with no `content` key at all but with usable media passes the 400 test and its files are written, but the INSERT then binds `undefined`, which the MySQL driver rejects, so the source answers 500 and stores no row. The model stores the row with NULL content and answers 201.
- Endpoints left out: `/login`, `/logout`, `GET` and `POST /current-user`, `GET /post/:id/comments`, `/post/:id/comments-count`, `POST /comments`, `GET /like-post` and `/get-comment-likes`. They are reads or inserts with no rule beyond those modelled. `/followed-tags` appears only through `FollowedNames`.
- ServerStore.Store.DeletePost: a `postId` that is not a number is not modelled; the id is an optional integer.
- ServerStore.Store.GetPost: `parseInt` of the route id is given as a parsed value.
- Response bodies: `JsonErrorBody` assumes an error message needs no JSON escaping, which holds for every message the server writes.
- ParseInt, ClampPage, ClampPageSize, Offset and BumpLikes: numbers are unbounded integers. JavaScript numbers are IEEE doubles, so `parseInt` rounds numerals beyond 2^53 and reads a numeral of 309 or more digits as `Infinity`, which makes the offset `Infinity` too. The MySQL `likes` column has a fixed width. None of these limits is modelled.
- addCommentBase64: the comment screens send `Authorization: Bearer ${token}` built inline rather than through `authHeaders`, so with no stored token they send "Bearer null", which the server answers 403 rather than 401. The comment request is not modelled.
- Unicode: string lengths are counted in characters, not UTF-16 code units. JavaScript white space is the ECMAScript set.
- CommentThread.Thread.ToggleLike: it replaces the matched element by value. The source mutates the object it shares with the previous `comments` array, and that aliasing is not modelled.
- CreatePost.Composer.HandleInputChange: it requires an index inside the input list. The screen only passes such indices. JavaScript would also accept an index past the end and grow the array.
- CreatePost: the read-more, heights and scrolling state of the composers are left out as layout.
- CreatePost.NavigateTypeError: the message of the TypeError that `.tsx`'s submit shows is V8's wording. Other JavaScript engines (Hermes among them) word it differently; the model fixes one text.
- Post.js: `findURLs` and the link rewriting are left out; their output depends on stale state. The comment counter poll, `fetchPostData` and the media scroll index are left out too.
- TagChip.Chip.Press: Tag.js's navigation refresh of the Following screen is not modelled; only the `onRefresh` effect is.
- Tag.tsx: a missing `onRefresh` throws a TypeError that the press's own `catch` swallows. It is recorded as `RefreshMissing`.
- Login: the mount effect that skips to Main when a token is stored, and the iOS install prompt, are left out.
- CommentView.IsMine: the ownership comparison is the predicate itself. It has no contract beyond its definition.

## Findings

| source | as written | input that shows it | evidently intended | confidence | as-written member | corrected member |
|---|---|---|---|---|---|---|
| backend/server.js:119 | the success reply reads `idUser`, which is not declared in the handler; the ReferenceError is caught and answered 500 after both rows were inserted | any request with five non-empty fields, a group of at most 10 characters and a new email | answer with the token and `{ idUser: userId, displayedName }` | high, not executed | ServerTables.RegisterNeverSucceeds | ServerTables.IntendedRegisterAnswersStoredId |
| frontend/screens/GlobalChatScreen.js:38 | the error handler calls `AsyncStorage.removeItem` without importing AsyncStorage; the ReferenceError escapes before `isLoading` is cleared. The class has no `render()` and is not exported, and no other file uses it, so the defect is latent until the screen is wired in | a comments request answered with the missing-token 401 body | remove the token, clear `isLoading` and let the list load again, as the Feed screen does | high, not executed | ScrollList.GlobalChatStuckAfterAuthError | ScrollList.FailureReenablesLoading |
| components/CreatePost.tsx:32 | the component takes its props object as `navigation`, so `navigation.navigate('Main')` throws after a successful post and the TypeError message is shown as the error | any non-blank submit that the server accepts | destructure `{ navigation }` and navigate to Main with no error | high, not executed | CreatePost.TsxSuccessReportsTypeError | CreatePost.TsxIntendedNavigates |
