/**
 * The request handlers of backend/server.js over an in-memory store: a class whose fields
 * are the Nsu, Users, Post, Comment, UserLikedPost, UserLikedComment, Tag and
 * UserFollowedTag tables. Each handler is a method proved against the pure effects of
 * module ServerTables and the listing functions below.
 */
module ServerStore {
  import opened Wrappers
  import opened JsText
  import opened ServerPaging
  import opened ServerTags
  import opened ServerTables

  /** The `pagination` object of a list reply. */
  datatype Pagination = Pagination(currentPage: int, pageSize: int, total: nat, totalPages: nat)

  /** A list reply: one page of rows and its pagination. */
  datatype Listing<T> = Listing(rows: seq<T>, pagination: Pagination)

  /** The reply of every paginated endpoint, given all matching rows in reply order:
      `LIMIT pageSize OFFSET (page - 1) * pageSize`, the row count and the page count. */
  function ListPage<T>(all: seq<T>, pageQ: Parsed, sizeQ: Parsed): (r: Listing<T>)
    ensures r.pagination.currentPage >= 1 && 1 <= r.pagination.pageSize <= MaxPageSize
    ensures r.pagination.total == |all| && |r.rows| <= r.pagination.pageSize
    ensures r.pagination.totalPages * r.pagination.pageSize >= |all|
    ensures r.rows != [] <==> r.pagination.currentPage <= r.pagination.totalPages
    ensures forall i :: 0 <= i < |r.rows| ==>
      var k := Offset(r.pagination.currentPage, r.pagination.pageSize) + i;
      k < |all| && r.rows[i] == all[k]
  {
    var page := ClampPage(pageQ);
    var size := ClampPageSize(sizeQ);
    PageNonEmptyIff(all, page, size);
    TotalPagesIsLeast(|all|, size);
    Listing(PageRows(all, page, size), Pagination(page, size, |all|, TotalPages(|all|, size)))
  }

  /** `ORDER BY id DESC` on rows held in id order. */
  function Newest<T>(rows: seq<T>): (r: seq<T>)
    ensures |r| == |rows|
    ensures forall i :: 0 <= i < |r| ==> r[i] == rows[|rows| - 1 - i]
  {
    if rows == [] then [] else Newest(rows[1..]) + [rows[0]]
  }

  /** `WHERE createdByIdUser = ?` */
  function PostsBy(posts: seq<Row<PostFields>>, user: int): (r: seq<Row<PostFields>>)
    ensures forall i :: 0 <= i < |r| ==> r[i].fields.createdBy == user
    ensures forall p :: p in r <==> p in posts && p.fields.createdBy == user
    ensures |r| <= |posts|
  {
    if posts == [] then []
    else if posts[0].fields.createdBy == user then [posts[0]] + PostsBy(posts[1..], user)
    else PostsBy(posts[1..], user)
  }

  /** The `EXISTS` test of `/following-posts`: some tag the user follows matches. */
  predicate FollowsTagOf(tagIds: map<string, int>, followed: set<(int, int)>, user: int, post: Row<PostFields>)
  {
    exists name | name in tagIds :: (user, tagIds[name]) in followed && TagMatches(post.fields.tags, name)
  }

  /** The posts `/following-posts` selects, in id order. */
  function FollowingPosts(posts: seq<Row<PostFields>>, tagIds: map<string, int>, followed: set<(int, int)>, user: int)
    : (r: seq<Row<PostFields>>)
    ensures forall i :: 0 <= i < |r| ==> FollowsTagOf(tagIds, followed, user, r[i])
    ensures forall p :: p in r <==> p in posts && FollowsTagOf(tagIds, followed, user, p)
    ensures |r| <= |posts|
  {
    if posts == [] then []
    else if FollowsTagOf(tagIds, followed, user, posts[0]) then [posts[0]] + FollowingPosts(posts[1..], tagIds, followed, user)
    else FollowingPosts(posts[1..], tagIds, followed, user)
  }

  /** Selecting a user's posts from two runs of rows selects from each, in order: the
      profile listing keeps the table's order. */
  lemma {:induction false} PostsByAppend(a: seq<Row<PostFields>>, b: seq<Row<PostFields>>, user: int)
    ensures PostsBy(a + b, user) == PostsBy(a, user) + PostsBy(b, user)
  {
    if a != [] {
      assert (a + b)[0] == a[0];
      assert (a + b)[1..] == a[1..] + b;
      PostsByAppend(a[1..], b, user);
    } else {
      assert a + b == b;
    }
  }

  /** The same for the following feed: it keeps the table's order. */
  lemma {:induction false} FollowingPostsAppend(a: seq<Row<PostFields>>, b: seq<Row<PostFields>>,
                                                tagIds: map<string, int>, followed: set<(int, int)>, user: int)
    ensures FollowingPosts(a + b, tagIds, followed, user) ==
      FollowingPosts(a, tagIds, followed, user) + FollowingPosts(b, tagIds, followed, user)
  {
    if a != [] {
      assert (a + b)[0] == a[0];
      assert (a + b)[1..] == a[1..] + b;
      FollowingPostsAppend(a[1..], b, tagIds, followed, user);
    } else {
      assert a + b == b;
    }
  }

  /** A stored post is in a user's following feed iff one of its tags (as the server
      splits them) is a tag the user follows; a post without tags only through the empty
      tag. */
  lemma FollowsTagIffTagged(t: TagTables, user: int, posts: seq<Row<PostFields>>, post: Row<PostFields>)
    requires forall name :: name in t.ids ==> Comma !in name
    ensures FollowsTagOf(t.ids, t.followed, user, post) <==>
      exists name :: name in FollowedNames(t, user) &&
        (if post.fields.tags.None? then name == [] else name in Split(post.fields.tags.value, Comma))
    ensures post in posts ==> (post in FollowingPosts(posts, t.ids, t.followed, user) <==>
      exists name :: name in FollowedNames(t, user) &&
        (if post.fields.tags.None? then name == [] else name in Split(post.fields.tags.value, Comma)))
  {
    var tags := post.fields.tags;
    if FollowsTagOf(t.ids, t.followed, user, post) {
      var name :| name in t.ids && (user, t.ids[name]) in t.followed && TagMatches(tags, name);
      TagMatchesIffMember(tags, name);
      assert name in FollowedNames(t, user);
    }
    if exists name :: name in FollowedNames(t, user) &&
        (if tags.None? then name == [] else name in Split(tags.value, Comma)) {
      var name :| name in FollowedNames(t, user) &&
        (if tags.None? then name == [] else name in Split(tags.value, Comma));
      TagMatchesIffMember(tags, name);
      assert (user, t.ids[name]) in t.followed && TagMatches(tags, name);
    }
  }

  /** The tag list the create-post reply carries is the input's comma pieces, trimmed. */
  lemma CreatedTagsArePieces(tags: string)
    requires NormalizeTags(tags) != []
    ensures ColumnList(StoredTags(Some(tags))) == TrimAll(Split(tags, Comma))
  {
    NormalizedPieces(tags);
  }

  /** Image paths stored by create-post are read back unchanged by `/post/:id`, as long
      as no file name holds a comma. */
  lemma StoredImagesReadBack(paths: seq<string>)
    requires forall i :: 0 <= i < |paths| ==> paths[i] != [] && Comma !in paths[i]
    ensures ColumnList(Some(Join(paths, Comma))) == paths
  {
    if paths != [] {
      SplitJoin(paths, Comma);
      if |paths| > 1 {
        assert Join(paths, Comma) == paths[0] + [Comma] + Join(paths[1..], Comma);
      }
    }
  }

  /** The reply of `/posts` (create): the stored post as the client sees it. */
  datatype CreatedPost = CreatedPost(
    idPost: int, content: Option<string>, images: seq<string>, tags: seq<string>,
    createdBy: int, isAnonymous: bool)

  /** The reply of `/post/:id`: the row with its comma columns split. */
  datatype PostView = PostView(idPost: int, likes: int, content: Option<string>,
                               images: seq<string>, tags: seq<string>, createdBy: int)

  /** The `for` loop of create-post: collect `/uploads/<name>` for every upload with
      both a payload and a name. */
  method CollectImagePaths(images: seq<Upload>) returns (paths: seq<string>)
    ensures paths == UploadPaths(images)
  {
    paths := [];
    var i := 0;
    while i < |images|
      invariant 0 <= i <= |images|
      invariant paths == UploadPaths(images[..i])
    {
      assert images[..i + 1][..i] == images[..i];
      match UploadPath(images[i]) {
        case None =>
        case Some(p) => paths := paths + [p];
      }
      i := i + 1;
    }
    assert images[..i] == images;
  }

  class Store {
    var nsu: map<int, NsuRow>
    var users: map<int, UserRow>
    var posts: seq<Row<PostFields>>
    var comments: seq<Row<CommentFields>>
    var likedPosts: set<(int, int)>
    var likedComments: set<(int, int)>
    var tagIds: map<string, int>
    var followed: set<(int, int)>
    var nextUserId: int
    var nextPostId: int
    var nextTagId: int

    /** The Tag and UserFollowedTag tables. */
    function Tags(): TagTables
      reads this
    {
      TagTables(tagIds, nextTagId, followed)
    }

    ghost predicate Valid()
      reads this
    {
      && users.Keys <= nsu.Keys
      && (forall id :: id in nsu ==> id < nextUserId)
      && EmailsUnique(nsu)
      && IdsIncreasing(posts)
      && (forall i :: 0 <= i < |posts| ==> posts[i].id < nextPostId)
      && IdsIncreasing(comments)
      && TagsValid(Tags())
    }

    constructor()
      ensures Valid()
      ensures nsu == map[] && users == map[] && posts == [] && comments == []
      ensures likedPosts == {} && likedComments == {} && tagIds == map[] && followed == {}
    {
      nsu, users := map[], map[];
      posts, comments := [], [];
      likedPosts, likedComments := {}, {};
      tagIds, followed := map[], {};
      nextUserId, nextPostId, nextTagId := 1, 1, 1;
    }

    /** `/register`: refuse with 400 and change nothing, or insert the Nsu and Users rows
        under the next id and then answer 500 (the success reply reads an undeclared
        variable). `hashed` is the bcrypt hash of the password. */
    method Register(req: RegisterRequest, hashed: string) returns (reply: RegisterReply)
      requires Valid()
      modifies this
      ensures Valid()
      ensures reply == WrittenRegisterReply(req, old(nsu))
      ensures RegisterRefusal(req, old(nsu)).Some? ==>
        nsu == old(nsu) && users == old(users) && nextUserId == old(nextUserId)
      ensures RegisterRefusal(req, old(nsu)).None? ==>
        && nsu == old(nsu)[old(nextUserId) := NsuRowOf(req)]
        && users == old(users)[old(nextUserId) := UserRow(req.displayedName.value, PlaceholderPic, hashed)]
        && nextUserId == old(nextUserId) + 1
      ensures posts == old(posts) && comments == old(comments) && likedPosts == old(likedPosts)
      ensures likedComments == old(likedComments) && Tags() == old(Tags()) && nextPostId == old(nextPostId)
    {
      reply := WrittenRegisterReply(req, nsu);
      if RegisterRefusal(req, nsu).None? {
        var id := nextUserId;
        RegisterKeepsEmailsUnique(req, nsu, id);
        nsu := nsu[id := NsuRowOf(req)];
        users := users[id := UserRow(req.displayedName.value, PlaceholderPic, hashed)];
        nextUserId := id + 1;
      }
    }

    /** `DELETE /posts`: 400 for a missing or non-positive id; otherwise the requester's
        post with that id is removed (200), and when there is none nothing changes (404). */
    method DeletePost(me: int, postId: Option<int>) returns (status: int)
      requires Valid()
      modifies this
      ensures Valid()
      ensures postId.None? || postId.value <= 0 ==> status == 400 && posts == old(posts)
      ensures postId.Some? && postId.value > 0 ==>
        if Find(old(posts), postId.value).Some? && Find(old(posts), postId.value).value.fields.createdBy == me
        then status == 200 && posts == Without(old(posts), postId.value) && |posts| == |old(posts)| - 1
        else status == 404 && posts == old(posts)
      ensures nsu == old(nsu) && users == old(users) && comments == old(comments)
      ensures likedPosts == old(likedPosts) && likedComments == old(likedComments) && Tags() == old(Tags())
      ensures nextUserId == old(nextUserId) && nextPostId == old(nextPostId)
    {
      if postId.None? || postId.value <= 0 {
        return 400;
      }
      var row := Find(posts, postId.value);
      if row.Some? && row.value.fields.createdBy == me {
        WithoutSubsequence(posts, postId.value);
        WithoutRemovesOne(posts, postId.value);
        posts := Without(posts, postId.value);
        status := 200;
      } else {
        status := 404;
      }
    }

    /** `POST /posts`: 400 without content and media; otherwise the upload paths are
        collected, the tags normalised, and the row inserted under the next id (201). */
    method CreatePost(me: int, content: Option<string>, tags: Option<string>, isAnonymous: bool,
                      images: Option<seq<Upload>>) returns (status: int, created: Option<CreatedPost>)
      requires Valid()
      modifies this
      ensures Valid()
      ensures CreateRefused(content, images) ==> status == 400 && created.None? && posts == old(posts)
      ensures !CreateRefused(content, images) ==>
        var paths := if images.Some? then UploadPaths(images.value) else [];
        var creator := if isAnonymous then AnonymousUser else me;
        && status == 201
        && posts == old(posts) + [Row(old(nextPostId), 0, PostFields(content, Join(paths, Comma), StoredTags(tags), creator))]
        && created == Some(CreatedPost(old(nextPostId), content, paths, ColumnList(StoredTags(tags)), creator, isAnonymous))
      ensures nsu == old(nsu) && users == old(users) && comments == old(comments)
      ensures likedPosts == old(likedPosts) && likedComments == old(likedComments) && Tags() == old(Tags())
      ensures nextUserId == old(nextUserId)
      ensures nextPostId == if CreateRefused(content, images) then old(nextPostId) else old(nextPostId) + 1
    {
      if CreateRefused(content, images) {
        return 400, None;
      }
      var paths := [];
      if images.Some? {
        paths := CollectImagePaths(images.value);
      }
      var stored := StoredTags(tags);
      var creator := if isAnonymous then AnonymousUser else me;
      var id := nextPostId;
      posts := posts + [Row(id, 0, PostFields(content, Join(paths, Comma), stored, creator))];
      nextPostId := id + 1;
      status, created := 201, Some(CreatedPost(id, content, paths, ColumnList(stored), creator, isAnonymous));
    }

    /** `GET /post/:id`: 404 when no row has the id, otherwise the row with its tags and
        images split on commas. */
    method GetPost(id: Parsed) returns (status: int, view: Option<PostView>)
      ensures id.NaN? || Find(posts, id.value).None? ==> status == 404 && view.None?
      ensures id.Num? && Find(posts, id.value).Some? ==>
        var row := Find(posts, id.value).value;
        status == 200 && view == Some(PostView(row.id, row.likes, row.fields.content,
          ColumnList(Some(row.fields.images)), ColumnList(row.fields.tags), row.fields.createdBy))
    {
      if id.NaN? || Find(posts, id.value).None? {
        return 404, None;
      }
      var row := Find(posts, id.value).value;
      status := 200;
      view := Some(PostView(row.id, row.likes, row.fields.content,
        ColumnList(Some(row.fields.images)), ColumnList(row.fields.tags), row.fields.createdBy));
    }

    /** `GET /posts`: a page of all posts, newest first. */
    method ListPosts(pageQ: Parsed, sizeQ: Parsed) returns (r: Listing<Row<PostFields>>)
      ensures r == ListPage(Newest(posts), pageQ, sizeQ)
    {
      r := ListPage(Newest(posts), pageQ, sizeQ);
    }

    /** `GET /comments`: a page of all comments, newest first. */
    method ListComments(pageQ: Parsed, sizeQ: Parsed) returns (r: Listing<Row<CommentFields>>)
      ensures r == ListPage(Newest(comments), pageQ, sizeQ)
    {
      r := ListPage(Newest(comments), pageQ, sizeQ);
    }

    /** `GET /user/:id`: 404 for an unknown user; otherwise the profile and a page of the
        posts of the REQUESTER `me`, whatever user was asked for. */
    method UserProfile(me: int, userId: Parsed, pageQ: Parsed, sizeQ: Parsed)
      returns (status: int, profile: Option<Profile>, r: Option<Listing<Row<PostFields>>>)
      ensures userId.NaN? || userId.value !in users ==> status == 404 && profile.None? && r.None?
      ensures userId.Num? && userId.value in users ==>
        && status == 200 && profile == Some(Profile(users[userId.value].displayedName, users[userId.value].pic))
        && r == Some(ListPage(Newest(PostsBy(posts, me)), pageQ, sizeQ))
        && forall i :: 0 <= i < |r.value.rows| ==> r.value.rows[i].fields.createdBy == me
    {
      if userId.NaN? || userId.value !in users {
        return 404, None, None;
      }
      var mine := PostsBy(posts, me);
      var listing := ListPage(Newest(mine), pageQ, sizeQ);
      assert forall i :: 0 <= i < |listing.rows| ==> listing.rows[i] in mine;
      status, profile, r := 200, Some(Profile(users[userId.value].displayedName, users[userId.value].pic)), Some(listing);
    }

    /** `GET /following-posts`: a page of the posts matching a tag the requester follows,
        newest first. */
    method Following(me: int, pageQ: Parsed, sizeQ: Parsed) returns (r: Listing<Row<PostFields>>)
      ensures r == ListPage(Newest(FollowingPosts(posts, tagIds, followed, me)), pageQ, sizeQ)
      ensures forall i :: 0 <= i < |r.rows| ==> FollowsTagOf(tagIds, followed, me, r.rows[i])
    {
      var matching := FollowingPosts(posts, tagIds, followed, me);
      r := ListPage(Newest(matching), pageQ, sizeQ);
      assert forall i :: 0 <= i < |r.rows| ==> r.rows[i] in matching;
    }

    /** `POST /like-post`: the like pair is inserted and the counter raised; the reply is
        the row read back. */
    method LikePost(me: int, postId: int) returns (row: Option<Row<PostFields>>)
      requires Valid()
      modifies this
      ensures Valid()
      ensures LikeTables(posts, likedPosts) == Like(LikeTables(old(posts), old(likedPosts)), me, postId)
      ensures row == Find(posts, postId)
      ensures nsu == old(nsu) && users == old(users) && comments == old(comments)
      ensures likedComments == old(likedComments) && Tags() == old(Tags()) && nextPostId == old(nextPostId)
      ensures nextUserId == old(nextUserId)
    {
      var t := Like(LikeTables(posts, likedPosts), me, postId);
      posts, likedPosts := t.rows, t.liked;
      row := Find(posts, postId);
    }

    /** `POST /unlike-post`: the like pair is deleted and the counter lowered. */
    method UnlikePost(me: int, postId: int) returns (row: Option<Row<PostFields>>)
      requires Valid()
      modifies this
      ensures Valid()
      ensures LikeTables(posts, likedPosts) == Unlike(LikeTables(old(posts), old(likedPosts)), me, postId)
      ensures row == Find(posts, postId)
      ensures nsu == old(nsu) && users == old(users) && comments == old(comments)
      ensures likedComments == old(likedComments) && Tags() == old(Tags()) && nextPostId == old(nextPostId)
      ensures nextUserId == old(nextUserId)
    {
      var t := Unlike(LikeTables(posts, likedPosts), me, postId);
      posts, likedPosts := t.rows, t.liked;
      row := Find(posts, postId);
    }

    /** `POST /like-comment`. */
    method LikeComment(me: int, commentId: int) returns (row: Option<Row<CommentFields>>)
      requires Valid()
      modifies this
      ensures Valid()
      ensures LikeTables(comments, likedComments) == Like(LikeTables(old(comments), old(likedComments)), me, commentId)
      ensures row == Find(comments, commentId)
      ensures nsu == old(nsu) && users == old(users) && posts == old(posts)
      ensures likedPosts == old(likedPosts) && Tags() == old(Tags()) && nextPostId == old(nextPostId)
      ensures nextUserId == old(nextUserId)
    {
      var t := Like(LikeTables(comments, likedComments), me, commentId);
      comments, likedComments := t.rows, t.liked;
      row := Find(comments, commentId);
    }

    /** `POST /unlike-comment`. */
    method UnlikeComment(me: int, commentId: int) returns (row: Option<Row<CommentFields>>)
      requires Valid()
      modifies this
      ensures Valid()
      ensures LikeTables(comments, likedComments) == Unlike(LikeTables(old(comments), old(likedComments)), me, commentId)
      ensures row == Find(comments, commentId)
      ensures nsu == old(nsu) && users == old(users) && posts == old(posts)
      ensures likedPosts == old(likedPosts) && Tags() == old(Tags()) && nextPostId == old(nextPostId)
      ensures nextUserId == old(nextUserId)
    {
      var t := Unlike(LikeTables(comments, likedComments), me, commentId);
      comments, likedComments := t.rows, t.liked;
      row := Find(comments, commentId);
    }

    /** `POST /follow-tag`. */
    method FollowTag(me: int, name: string)
      requires Valid()
      modifies this
      ensures Valid()
      ensures Tags() == Follow(old(Tags()), me, name)
      ensures FollowedNames(Tags(), me) == FollowedNames(old(Tags()), me) + {name}
      ensures nsu == old(nsu) && users == old(users) && posts == old(posts) && comments == old(comments)
      ensures likedPosts == old(likedPosts) && likedComments == old(likedComments) && nextPostId == old(nextPostId)
      ensures nextUserId == old(nextUserId)
    {
      FollowAddsName(Tags(), me, name, me + 1);
      var t := Follow(Tags(), me, name);
      tagIds, nextTagId, followed := t.ids, t.next, t.followed;
    }

    /** `POST /unfollow-tag`: an unknown tag changes nothing. */
    method UnfollowTag(me: int, name: string)
      requires Valid()
      modifies this
      ensures Valid()
      ensures Tags() == Unfollow(old(Tags()), me, name)
      ensures FollowedNames(Tags(), me) == FollowedNames(old(Tags()), me) - {name}
      ensures name !in old(tagIds) ==> Tags() == old(Tags())
      ensures nsu == old(nsu) && users == old(users) && posts == old(posts) && comments == old(comments)
      ensures likedPosts == old(likedPosts) && likedComments == old(likedComments) && nextPostId == old(nextPostId)
      ensures nextUserId == old(nextUserId)
    {
      UnfollowRemovesName(Tags(), me, name);
      var t := Unfollow(Tags(), me, name);
      tagIds, nextTagId, followed := t.ids, t.next, t.followed;
    }
  }
}
