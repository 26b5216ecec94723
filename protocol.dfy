/**
 * How the client and the server fit together: the Authorization header the client
 * builds is read back by the server's pattern, the paged screens read every row of a
 * listing page by page, the tag and image strings the composer sends come back as the
 * card shows them, and the server's error bodies drive the client's error handling.
 */
module Protocol {
  import opened Wrappers
  import opened JsText
  import opened ServerPaging
  import ServerAuth
  import ServerTags
  import ServerTables
  import ServerStore
  import ScrollList
  import CreatePost
  import PostDisplay
  import Database
  import Login

  /** The body `respond(res, { error }, status)` sends, for a message needing no JSON
      escaping. */
  function JsonErrorBody(message: string): string
  {
    "{\"error\":\"" + message + "\"}"
  }

  // ---------------------------------------------------------------------------
  // The Authorization header

  /** A token the client stores is read back unchanged by the server when it does not
      start with white space and holds no line break. */
  lemma AuthHeaderRoundTrip(t: string)
    requires Database.UsableToken(Some(t)) && !IsSpace(t[0]) && ServerAuth.NoLineTerminator(t)
    ensures ServerAuth.BearerToken(Database.AuthHeaders(Some(t)).authorization) == Some(t)
  {
    var h := Database.BearerPrefix + t;
    assert ServerAuth.HasScheme(h);
    var rest := h[|ServerAuth.Scheme|..];
    assert rest == [' '] + t;
    assert IsSpace(rest[0]) && rest[1] == t[0];
    assert rest[1..] == t;
  }

  /** A client with no usable token sends no Authorization header, and the server then
      refuses with 401 whatever its token verifier and user table are. */
  lemma NoTokenRefused(token: Option<string>, verify: string -> Option<int>, users: set<int>)
    requires !Database.UsableToken(token)
    ensures ServerTables.Authenticate(Database.AuthHeaders(token).authorization, verify, users)
            == ServerTables.Refused(401, ServerTables.MissingTokenError)
  {
  }

  /** The message the paged screens compare against is the server's missing-token
      body; after logout the Feed and Following screens go back to Login on the next
      failed load. */
  lemma LoggedOutGoesToLogin(verify: string -> Option<int>, users: set<int>)
    ensures JsonErrorBody(ServerTables.MissingTokenError) == ScrollList.AuthErrorBody
    ensures var r := ServerTables.Authenticate(Database.AuthHeaders(None).authorization, verify, users);
      r.Refused? && ScrollList.FailureEffect(ScrollList.Feed, JsonErrorBody(r.error)) == ScrollList.ToLogin(false, true)
      && ScrollList.FailureEffect(ScrollList.Following, JsonErrorBody(r.error)) == ScrollList.ToLogin(false, true)
  {
  }

  // ---------------------------------------------------------------------------
  // Paged lists

  /** The rows the server answers a list request for `page` with, reading the query the
      client builds. */
  function ServerPage<T>(all: seq<T>, page: nat): seq<T>
  {
    ServerStore.ListPage(all, ParseInt(Decimal(page)), ParseInt(Decimal(Database.ClientPageSize))).rows
  }

  /** The server reads back the page the client asks for and the client's page size. */
  lemma ServerReadsRequestedPage<T>(all: seq<T>, page: nat)
    requires page >= 1
    ensures ServerPage(all, page) == PageRows(all, page, Database.ClientPageSize)
  {
    ParseIntDecimal(page);
    ParseIntDecimal(Database.ClientPageSize);
  }

  /** The reply of the list endpoint a screen reads: `posts`, or `comments` for the
      global chat. */
  function ReplyFor<T>(v: ScrollList.Variant, rows: seq<T>): ScrollList.Reply<T>
  {
    if v.GlobalChat? then ScrollList.Reply(None, Some(rows)) else ScrollList.Reply(Some(rows), None)
  }

  /** One scroll round: `fetchData` (when it may start) against the server's listing,
      then `handleLoadMore` when the end of the list is reached. */
  function Round<T>(v: ScrollList.Variant, all: seq<T>, s: ScrollList.ScrollState<T>): ScrollList.ScrollState<T>
  {
    if !ScrollList.CanFetch(s) || s.page < 0 then s
    else
      var loaded := ScrollList.Finish(v, ScrollList.Begin(s), ScrollList.Loaded(ReplyFor(v, ServerPage(all, s.page))));
      ScrollList.LoadMore(loaded)
  }

  function Rounds<T>(v: ScrollList.Variant, all: seq<T>, n: nat): ScrollList.ScrollState<T>
  {
    if n == 0 then ScrollList.Initial() else Round(v, all, Rounds(v, all, n - 1))
  }

  /** A round from a state that may fetch loads page `s.page` of the listing: the
      first page replaces the data, a later one is appended, and the page number
      advances only when the page was not empty. */
  lemma RoundLoadsPage<T>(v: ScrollList.Variant, all: seq<T>, s: ScrollList.ScrollState<T>)
    requires ScrollList.CanFetch(s) && s.page >= 1
    ensures var rows := PageRows(all, s.page, Database.ClientPageSize);
      Round(v, all, s) == ScrollList.ScrollState(
        if s.page == 1 then rows else s.data + rows,
        if rows != [] then s.page + 1 else s.page,
        false,
        rows != [])
  {
    var rows := PageRows(all, s.page, Database.ClientPageSize);
    ServerReadsRequestedPage(all, s.page);
    assert ScrollList.Items(v, ReplyFor(v, rows)) == rows;
  }

  /** The state of a screen that has read the first `n` pages of the listing: the data
      are those pages, the next page is asked for while `n` is at most the page count,
      and nothing is loading. */
  ghost predicate HasRead<T>(all: seq<T>, s: ScrollList.ScrollState<T>, n: nat)
  {
    var pages := TotalPages(|all|, Database.ClientPageSize);
    && s.data == FirstPages(all, Min(n, pages), Database.ClientPageSize)
    && s.page == Min(n, pages) + 1
    && (s.hasMore <==> n <= pages)
    && !s.isLoading
  }

  /** One more round reads one more page. */
  lemma RoundReadsNextPage<T>(v: ScrollList.Variant, all: seq<T>, s: ScrollList.ScrollState<T>, n: nat)
    requires HasRead(all, s, n)
    ensures HasRead(all, Round(v, all, s), n + 1)
  {
    var size := Database.ClientPageSize;
    var pages := TotalPages(|all|, size);
    if n <= pages {
      RoundLoadsPage(v, all, s);
      PageNonEmptyIff(all, n + 1, size);
      var rows := PageRows(all, n + 1, size);
      assert FirstPages(all, n + 1, size) == FirstPages(all, n, size) + rows;
      if n == 0 {
        assert FirstPages(all, 0, size) + rows == rows;
      }
      if n + 1 > pages {
        assert s.data + rows == s.data;
      }
    }
  }

  /** After `n` rounds a screen holds the first `n` pages of the listing, in order; it
      keeps asking while `n` is at most the page count, and once a round comes back
      empty it stops. */
  lemma {:induction false} ScrollReadsListing<T>(v: ScrollList.Variant, all: seq<T>, n: nat)
    ensures HasRead(all, Rounds(v, all, n), n)
  {
    if n > 0 {
      ScrollReadsListing(v, all, n - 1);
      RoundReadsNextPage(v, all, Rounds(v, all, n - 1), n - 1);
    }
  }

  /** Paging through a whole listing loads exactly its rows. */
  lemma ScrollLoadsEverything<T>(v: ScrollList.Variant, all: seq<T>)
    ensures var n := TotalPages(|all|, Database.ClientPageSize) + 1;
      Rounds(v, all, n).data == all && !Rounds(v, all, n).hasMore
  {
    var n := TotalPages(|all|, Database.ClientPageSize) + 1;
    ScrollReadsListing(v, all, n);
    AllPagesCoverRows(all, Database.ClientPageSize);
  }

  // ---------------------------------------------------------------------------
  // Tags and images of a new post

  /** Every tag the composer sends avoids a character no input holds. */
  lemma {:induction false} TagArrayKeepsOut(inputs: seq<string>, c: char)
    requires forall i :: 0 <= i < |inputs| ==> c !in inputs[i]
    ensures forall i :: 0 <= i < |CreatePost.TagArray(inputs)| ==> c !in CreatePost.TagArray(inputs)[i]
  {
    if inputs != [] {
      TagArrayKeepsOut(inputs[1..], c);
      TrimKeepsOut(inputs[0], c);
      var t, rest := Trim(inputs[0]), CreatePost.TagArray(inputs[1..]);
      assert CreatePost.TagArray(inputs) == if t == [] then rest else [t] + rest;
    }
  }

  lemma JoinNonEmpty(parts: seq<string>, sep: char)
    requires parts != [] && parts[0] != []
    ensures Join(parts, sep) != []
  {
    if |parts| > 1 {
      assert Join(parts, sep) == parts[0] + [sep] + Join(parts[1..], sep);
    }
  }

  lemma TrimAllKeepsTrimmed(parts: seq<string>)
    requires forall i :: 0 <= i < |parts| ==> Trim(parts[i]) == parts[i]
    ensures ServerTags.TrimAll(parts) == parts
  {
  }

  /** For tag inputs without commas the server stores the composer's tag string as it
      is (NULL when no tag is left), and the created post lists exactly the composer's
      tags. */
  lemma TagPayloadStoredAsIs(inputs: seq<string>)
    requires forall i :: 0 <= i < |inputs| ==> ServerTags.Comma !in inputs[i]
    ensures var tags := CreatePost.TagArray(inputs);
      var stored := ServerTags.StoredTags(Some(CreatePost.TagPayload(inputs)));
      && stored == (if tags == [] then None else Some(CreatePost.TagPayload(inputs)))
      && ServerTags.ColumnList(stored) == tags
  {
    var tags := CreatePost.TagArray(inputs);
    var payload := CreatePost.TagPayload(inputs);
    CreatePost.TagArrayTrimmed(inputs);
    TagArrayKeepsOut(inputs, ServerTags.Comma);
    if tags != [] {
      JoinNonEmpty(tags, ServerTags.Comma);
      SplitJoin(tags, ServerTags.Comma);
      TrimAllKeepsTrimmed(tags);
      assert ServerTags.NormalizeTags(payload) == payload;
    }
  }

  /** Every recorded upload path avoids a character neither the prefix nor any upload
      name holds. */
  lemma {:induction false} UploadPathsKeepOut(images: seq<ServerTables.Upload>, c: char)
    requires c !in ServerTables.UploadPrefix
    requires forall i :: 0 <= i < |images| && images[i].name.Some? ==> c !in images[i].name.value
    ensures forall i :: 0 <= i < |ServerTables.UploadPaths(images)| ==> c !in ServerTables.UploadPaths(images)[i]
    decreases |images|
  {
    if images != [] {
      var init, last := images[..|images| - 1], images[|images| - 1];
      UploadPathsKeepOut(init, c);
      if ServerTables.UploadPath(last).Some? {
        assert c !in ServerTables.UploadPath(last).value;
      }
    }
  }

  /** Recorded upload paths are never empty, and they hold no comma when no upload
      name does. */
  lemma UploadPathsUsable(images: seq<ServerTables.Upload>)
    requires forall i :: 0 <= i < |images| && images[i].name.Some? ==> ServerTags.Comma !in images[i].name.value
    ensures PostDisplay.ColumnSafe(ServerTables.UploadPaths(images))
  {
    var paths := ServerTables.UploadPaths(images);
    UploadPathsKeepOut(images, ServerTags.Comma);
    forall i | 0 <= i < |paths|
      ensures paths[i] != []
    {
      assert StartsWith(paths[i], ServerTables.UploadPrefix);
    }
  }

  /** A post card shows exactly the media the server recorded for the post, in order,
      whether the post arrives as a stored row or as the create-post reply. */
  lemma CardShowsUploads(images: seq<ServerTables.Upload>)
    requires forall i :: 0 <= i < |images| && images[i].name.Some? ==> ServerTags.Comma !in images[i].name.value
    ensures var paths := ServerTables.UploadPaths(images);
      PostDisplay.MediaItems(PostDisplay.Text(Join(paths, ServerTags.Comma))) == paths
      && PostDisplay.MediaItems(PostDisplay.Items(paths)) == paths
  {
    UploadPathsUsable(images);
    PostDisplay.MediaOfStoredPaths(ServerTables.UploadPaths(images));
  }

  lemma EndsWithAppend(a: string, b: string, c: string)
    ensures EndsWith(a + (b + c), c)
  {
    var s := a + (b + c);
    assert s[|s| - |c|..] == c;
  }

  /** A video picked with MIME subtype mp4, mov or m4v is uploaded under a name ending
      in that extension, so the card plays it. */
  lemma VideoUploadPlays(f: CreatePost.Flavor, item: CreatePost.MediaItem, time: nat, index: nat, t: string, sub: string)
    requires item.mimeType == t + "/" + sub && '/' !in t
    requires sub in {"mp4", "mov", "m4v"}
    ensures PostDisplay.IsVideo(ServerTables.UploadPrefix + CreatePost.FileName(f, item, time, index))
  {
    CreatePost.FileNameOfSubtype(f, item, time, index, t, sub);
    EndsWithAppend(ServerTables.UploadPrefix, CreatePost.FileStem(f, item, time, index), "." + sub);
    if sub == "mp4" {
      assert "." + sub == ".mp4";
    } else if sub == "mov" {
      assert "." + sub == ".mov";
    } else {
      assert "." + sub == ".m4v";
    }
  }

  lemma QuicktimeNotVideo(s: string)
    requires EndsWith(s, ".quicktime")
    ensures !PostDisplay.IsVideo(s)
  {
    assert s[|s| - 4..] == s[|s| - 10..][6..];
  }

  /** A video picked with MIME subtype quicktime (the type iOS gives .mov files) is
      uploaded under a name ending in ".quicktime", which the card's pattern does not
      recognise: it is shown as an image. */
  lemma QuicktimeUploadShownAsImage(f: CreatePost.Flavor, item: CreatePost.MediaItem, time: nat, index: nat, t: string)
    requires item.mimeType == t + "/" + "quicktime" && '/' !in t
    ensures !PostDisplay.IsVideo(ServerTables.UploadPrefix + CreatePost.FileName(f, item, time, index))
  {
    CreatePost.FileNameOfSubtype(f, item, time, index, t, "quicktime");
    assert "." + "quicktime" == ".quicktime";
    EndsWithAppend(ServerTables.UploadPrefix, CreatePost.FileStem(f, item, time, index), ".quicktime");
    QuicktimeNotVideo(ServerTables.UploadPrefix + CreatePost.FileName(f, item, time, index));
  }

  // ---------------------------------------------------------------------------
  // Sign-up against the server

  /** The body `Database.register` posts for the sign-up fields. */
  function RequestOf(f: Login.Fields): ServerTables.RegisterRequest
  {
    ServerTables.RegisterRequest(Some(f.email), Some(f.password), Some(f.realName), Some(f.group), Some(f.displayedName))
  }

  /** What the awaited `Database.register` throws for a reply: a refusal's body as the
      error message, nothing for a success. */
  function ThrownBy(reply: ServerTables.RegisterReply): Option<string>
  {
    match reply
    case RegisterFailed(_, error) => Some(JsonErrorBody(error))
    case Registered(_, _, _) => None
  }

  /** As written, a sign-up that passes the client's gate never reaches Main: the
      server always answers with an error, whose body the screen shows. */
  lemma SignUpNeverCompletes(s: Login.LoginState, nsu: map<int, ServerTables.NsuRow>)
    requires !s.isLogin && Login.SignUpAllowed(s.fields)
    ensures var reply := ServerTables.WrittenRegisterReply(RequestOf(s.fields), nsu);
      var r := Login.SubmitOf(s, ThrownBy(reply));
      && !r.navigated
      && r.error == Some(JsonErrorBody(reply.error))
  {
    ServerTables.RegisterNeverSucceeds(RequestOf(s.fields), nsu);
  }

  /** With the reply the server evidently intends, a sign-up the server accepts reaches
      Main, and one it refuses shows the refusal. */
  lemma IntendedSignUpCompletes(s: Login.LoginState, nsu: map<int, ServerTables.NsuRow>, userId: int, token: string)
    requires !s.isLogin && Login.SignUpAllowed(s.fields)
    ensures var req := RequestOf(s.fields);
      var reply := ServerTables.IntendedRegisterReply(req, nsu, userId, token);
      var r := Login.SubmitOf(s, ThrownBy(reply));
      && (r.navigated <==> ServerTables.RegisterRefusal(req, nsu).None?)
      && (!r.navigated ==> r.error == Some(JsonErrorBody(ServerTables.RegisterRefusal(req, nsu).value)))
  {
    ServerTables.IntendedRegisterAnswersStoredId(RequestOf(s.fields), nsu, userId, token);
  }
}
