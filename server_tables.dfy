/**
 * The tables of backend/server.js and the pure effect of each request handler on them:
 * likes, follows, registration checks, uploaded image paths and the authentication
 * middleware. The class `Store` (module ServerStore) applies these effects in place.
 */
module ServerTables {
  import opened Wrappers
  import opened JsText
  import opened ServerAuth

  /** The user id the server writes for anonymous posts and comments. */
  const AnonymousUser := 2

  /** A row of a table with an auto-increment id and a `likes` counter (Post, Comment). */
  datatype Row<T> = Row(id: int, likes: int, fields: T)

  /** The columns of a Post row besides its id and its likes. */
  datatype PostFields = PostFields(content: Option<string>, images: string, tags: Option<string>, createdBy: int)

  /** The columns of a Comment row besides its id and its likes. */
  datatype CommentFields = CommentFields(postId: int, text: string, createdBy: int)

  /** A row of the Nsu table (registration data). */
  datatype NsuRow = NsuRow(realName: string, email: string, group: string, hasLogined: bool)

  /** A row of the Users table. */
  datatype UserRow = UserRow(displayedName: string, pic: string, password: string)

  /** The columns `GET /user/:id` selects from a Users row: no password hash. */
  datatype Profile = Profile(displayedName: string, pic: string)

  /** Rows in primary-key order. */
  ghost predicate IdsIncreasing<T>(rows: seq<Row<T>>)
  {
    forall i, j :: 0 <= i < j < |rows| ==> rows[i].id < rows[j].id
  }

  /** Position `k` holds the first row of `rows` with id `id`. */
  predicate FirstWithId<T>(rows: seq<Row<T>>, id: int, k: int)
  {
    0 <= k < |rows| && rows[k].id == id && forall j :: 0 <= j < k ==> rows[j].id != id
  }

  /** `SELECT * FROM t WHERE id = ?` on a table whose ids are unique. */
  function Find<T>(rows: seq<Row<T>>, id: int): (r: Option<Row<T>>)
    ensures r.Some? ==> r.value.id == id
    ensures r.None? ==> forall i :: 0 <= i < |rows| ==> rows[i].id != id
  {
    if rows == [] then None
    else if rows[0].id == id then Some(rows[0])
    else Find(rows[1..], id)
  }

  /** A found row is a stored row: the first one with the id asked for. */
  lemma {:induction false} FindIsFirst<T>(rows: seq<Row<T>>, id: int)
    ensures Find(rows, id).Some? ==> exists k :: FirstWithId(rows, id, k) && rows[k] == Find(rows, id).value
  {
    if rows != [] {
      if rows[0].id == id {
        assert FirstWithId(rows, id, 0);
      } else if Find(rows[1..], id).Some? {
        FindIsFirst(rows[1..], id);
        var k :| FirstWithId(rows[1..], id, k) && rows[1..][k] == Find(rows[1..], id).value;
        forall j | 0 <= j < k + 1
          ensures rows[j].id != id
        {
          if j > 0 {
            assert rows[j] == rows[1..][j - 1];
          }
        }
        assert FirstWithId(rows, id, k + 1);
      }
    }
  }

  lemma {:induction false} FindAbsent<T>(rows: seq<Row<T>>, id: int)
    requires forall i :: 0 <= i < |rows| ==> rows[i].id != id
    ensures Find(rows, id).None?
  {
    if rows != [] {
      FindAbsent(rows[1..], id);
    }
  }

  /** `UPDATE t SET likes = likes + delta WHERE id = ?`: the matching rows change their
      counter by `delta`, every other row and the order stay as they were. */
  function BumpLikes<T>(rows: seq<Row<T>>, id: int, delta: int): (r: seq<Row<T>>)
    ensures |r| == |rows|
    ensures forall i :: 0 <= i < |rows| ==>
      r[i].id == rows[i].id && r[i].fields == rows[i].fields
      && r[i].likes == (if rows[i].id == id then rows[i].likes + delta else rows[i].likes)
  {
    if rows == [] then []
    else
      var head := if rows[0].id == id then rows[0].(likes := rows[0].likes + delta) else rows[0];
      [head] + BumpLikes(rows[1..], id, delta)
  }

  /** An increment followed by the same decrement restores the table. */
  lemma BumpLikesInverse<T>(rows: seq<Row<T>>, id: int, delta: int)
    ensures BumpLikes(BumpLikes(rows, id, delta), id, -delta) == rows
  {
    var r := BumpLikes(BumpLikes(rows, id, delta), id, -delta);
    assert forall i :: 0 <= i < |rows| ==> r[i] == rows[i];
  }

  /** The row read back after an update is the old row with its counter moved by `delta`. */
  lemma {:induction false} FindAfterBump<T>(rows: seq<Row<T>>, id: int, delta: int)
    ensures Find(BumpLikes(rows, id, delta), id) ==
      (if Find(rows, id).Some? then Some(Find(rows, id).value.(likes := Find(rows, id).value.likes + delta)) else None)
  {
    if rows != [] && rows[0].id != id {
      FindAfterBump(rows[1..], id, delta);
      assert BumpLikes(rows, id, delta)[1..] == BumpLikes(rows[1..], id, delta);
    }
  }

  /** `DELETE FROM t WHERE id = ?`: the rows with that id are removed, the others keep
      their order. */
  function Without<T>(rows: seq<Row<T>>, id: int): (r: seq<Row<T>>)
    ensures forall i :: 0 <= i < |r| ==> r[i] in rows && r[i].id != id
    ensures forall i :: 0 <= i < |rows| && rows[i].id != id ==> rows[i] in r
    ensures |r| <= |rows|
  {
    if rows == [] then []
    else if rows[0].id == id then Without(rows[1..], id)
    else [rows[0]] + Without(rows[1..], id)
  }

  lemma {:induction false} WithoutSubsequence<T>(rows: seq<Row<T>>, id: int)
    requires IdsIncreasing(rows)
    ensures IdsIncreasing(Without(rows, id))
  {
    if rows != [] {
      WithoutSubsequence(rows[1..], id);
      var w := Without(rows[1..], id);
      forall j | 0 <= j < |w| ensures rows[0].id < w[j].id {
        assert w[j] in rows[1..];
      }
    }
  }

  /** On a table with unique ids, deleting a present id removes exactly one row. */
  lemma {:induction false} WithoutRemovesOne<T>(rows: seq<Row<T>>, id: int)
    requires IdsIncreasing(rows)
    ensures |Without(rows, id)| == |rows| - (if Find(rows, id).Some? then 1 else 0)
  {
    if rows != [] {
      WithoutRemovesOne(rows[1..], id);
      if rows[0].id == id {
        FindAbsent(rows[1..], id);
      }
    }
  }

  /** The Like tables of one kind of row: the rows and the (idUser, id) like pairs. */
  datatype LikeTables<T> = LikeTables(rows: seq<Row<T>>, liked: set<(int, int)>)

  /** `/like-post` and `/like-comment`: insert the like pair (a duplicate key is a
      no-op) and then add one to the counter, whether or not the pair was new. */
  function Like<T>(t: LikeTables<T>, user: int, id: int): LikeTables<T>
  {
    LikeTables(BumpLikes(t.rows, id, 1), t.liked + {(user, id)})
  }

  /** `/unlike-post` and `/unlike-comment`: delete the like pair (if any) and then
      subtract one from the counter, whether or not a pair was deleted. */
  function Unlike<T>(t: LikeTables<T>, user: int, id: int): LikeTables<T>
  {
    LikeTables(BumpLikes(t.rows, id, -1), t.liked - {(user, id)})
  }

  /** The counter of `id`, if the row exists. */
  function LikesOf<T>(rows: seq<Row<T>>, id: int): Option<int>
  {
    match Find(rows, id)
    case None => None
    case Some(row) => Some(row.likes)
  }

  /** Every like call adds exactly one to the counter and every unlike call takes one
      away; the like pairs behave as a set. */
  lemma LikeMovesCounterByOne<T>(t: LikeTables<T>, user: int, id: int)
    ensures LikesOf(t.rows, id).Some? ==>
      LikesOf(Like(t, user, id).rows, id) == Some(LikesOf(t.rows, id).value + 1)
      && LikesOf(Unlike(t, user, id).rows, id) == Some(LikesOf(t.rows, id).value - 1)
    ensures LikesOf(t.rows, id).None? ==>
      LikesOf(Like(t, user, id).rows, id).None? && LikesOf(Unlike(t, user, id).rows, id).None?
    ensures (user, id) in Like(t, user, id).liked && (user, id) !in Unlike(t, user, id).liked
  {
    LikesAfterBump(t.rows, id, 1);
    LikesAfterBump(t.rows, id, -1);
  }

  lemma {:induction false} LikesAfterBump<T>(rows: seq<Row<T>>, id: int, delta: int)
    ensures LikesOf(BumpLikes(rows, id, delta), id) ==
      (if LikesOf(rows, id).Some? then Some(LikesOf(rows, id).value + delta) else None)
  {
    if rows != [] && rows[0].id != id {
      LikesAfterBump(rows[1..], id, delta);
      assert BumpLikes(rows, id, delta)[1..] == BumpLikes(rows[1..], id, delta);
    }
  }

  /** The users recorded as liking `id`. */
  function Likers(liked: set<(int, int)>, id: int): set<int>
  {
    set p | p in liked && p.1 == id :: p.0
  }

  /** A user liking a row they already like breaks the agreement between the counter
      and the like pairs: the pairs stay the same and the counter grows. */
  lemma RepeatedLikeDrifts<T>(t: LikeTables<T>, user: int, id: int)
    requires (user, id) in t.liked
    requires LikesOf(t.rows, id) == Some(|Likers(t.liked, id)|)
    ensures LikesOf(Like(t, user, id).rows, id) == Some(|Likers(Like(t, user, id).liked, id)| + 1)
  {
    LikeMovesCounterByOne(t, user, id);
    assert Like(t, user, id).liked == t.liked;
  }

  /** The Tag and UserFollowedTag tables: tag names with their ids (names are unique),
      the next auto-increment id, and the (idUser, idTag) follow pairs. */
  datatype TagTables = TagTables(ids: map<string, int>, next: int, followed: set<(int, int)>)

  ghost predicate TagsValid(t: TagTables)
  {
    && (forall n :: n in t.ids ==> t.ids[n] < t.next)
    && (forall n, m :: n in t.ids && m in t.ids && n != m ==> t.ids[n] != t.ids[m])
    && (forall p :: p in t.followed ==> p.1 < t.next)
  }

  /** `/follow-tag`: insert the tag name if it is new (a duplicate name is a no-op), look
      up its id and insert the follow pair (a duplicate pair is a no-op). */
  function Follow(t: TagTables, user: int, name: string): (r: TagTables)
    ensures name in r.ids
  {
    var t1 := if name in t.ids then t else TagTables(t.ids[name := t.next], t.next + 1, t.followed);
    t1.(followed := t1.followed + {(user, t1.ids[name])})
  }

  /** `/unfollow-tag`: delete the follow pair when the tag exists; an unknown tag
      changes nothing. */
  function Unfollow(t: TagTables, user: int, name: string): TagTables
  {
    if name in t.ids then t.(followed := t.followed - {(user, t.ids[name])}) else t
  }

  /** `/followed-tags`: the names of the tags a user follows. */
  function FollowedNames(t: TagTables, user: int): set<string>
  {
    set n | n in t.ids && (user, t.ids[n]) in t.followed
  }

  /** Following keeps the tables valid and adds exactly that name to the user's tags;
      other users' tags do not change. */
  lemma FollowAddsName(t: TagTables, user: int, name: string, other: int)
    requires TagsValid(t) && other != user
    ensures TagsValid(Follow(t, user, name))
    ensures FollowedNames(Follow(t, user, name), user) == FollowedNames(t, user) + {name}
    ensures FollowedNames(Follow(t, user, name), other) == FollowedNames(t, other)
  {
    var r := Follow(t, user, name);
    if name !in t.ids {
      assert forall n :: n in t.ids ==> (user, t.ids[n]) != (user, t.next);
      assert forall n :: n in t.ids ==> (other, t.ids[n]) != (user, t.next);
    }
    forall n | n in r.ids && n != name
      ensures n in t.ids && r.ids[n] == t.ids[n] && r.ids[n] != r.ids[name]
    {
    }
  }

  /** Following is idempotent. */
  lemma FollowIdempotent(t: TagTables, user: int, name: string)
    ensures Follow(Follow(t, user, name), user, name) == Follow(t, user, name)
  {
  }

  /** Unfollowing removes exactly that name from the user's tags. */
  lemma UnfollowRemovesName(t: TagTables, user: int, name: string)
    requires TagsValid(t)
    ensures TagsValid(Unfollow(t, user, name))
    ensures FollowedNames(Unfollow(t, user, name), user) == FollowedNames(t, user) - {name}
  {
    if name in t.ids {
      forall n | n in t.ids && n != name ensures t.ids[n] != t.ids[name] {
      }
    }
  }

  /** A registration request body; a missing field is None. */
  datatype RegisterRequest = RegisterRequest(
    email: Option<string>, password: Option<string>, realName: Option<string>,
    group: Option<string>, displayedName: Option<string>)

  /** JavaScript falsiness of a string field: missing or empty. */
  predicate Falsy(s: Option<string>)
  {
    s.None? || s.value == []
  }

  predicate EmailTaken(nsu: map<int, NsuRow>, email: string)
  {
    exists id | id in nsu :: nsu[id].email == email
  }

  /** No two registrations share an email. */
  ghost predicate EmailsUnique(nsu: map<int, NsuRow>)
  {
    forall a, b :: a in nsu && b in nsu && a != b ==> nsu[a].email != nsu[b].email
  }

  const MaxGroupLength := 10

  /** The 400 answer `/register` gives before touching the tables, if any. */
  function RegisterRefusal(req: RegisterRequest, nsu: map<int, NsuRow>): (r: Option<string>)
    ensures r.None? ==> !Falsy(req.email) && !Falsy(req.password) && !Falsy(req.realName)
                        && !Falsy(req.group) && !Falsy(req.displayedName)
                        && |req.group.value| <= MaxGroupLength && !EmailTaken(nsu, req.email.value)
  {
    if Falsy(req.email) || Falsy(req.password) || Falsy(req.realName) || Falsy(req.group)
       || Falsy(req.displayedName)
    then Some("All fields are required")
    else if |req.group.value| > MaxGroupLength then Some("Group name must be 10 characters or fewer")
    else if EmailTaken(nsu, req.email.value) then Some("Email already exists")
    else None
  }

  /** The Nsu row `/register` inserts for an accepted request. */
  function NsuRowOf(req: RegisterRequest): NsuRow
    requires !Falsy(req.email) && !Falsy(req.realName) && !Falsy(req.group)
  {
    NsuRow(req.realName.value, req.email.value, req.group.value, false)
  }

  /** Registering an accepted request keeps emails unique, and the same email is then
      refused. */
  lemma RegisterKeepsEmailsUnique(req: RegisterRequest, nsu: map<int, NsuRow>, id: int)
    requires EmailsUnique(nsu) && id !in nsu && RegisterRefusal(req, nsu).None?
    ensures EmailsUnique(nsu[id := NsuRowOf(req)])
    ensures RegisterRefusal(req, nsu[id := NsuRowOf(req)]) == Some("Email already exists")
  {
    var nsu' := nsu[id := NsuRowOf(req)];
    assert nsu'[id].email == req.email.value;
  }

  const PlaceholderPic := "https://via.placeholder.com/150"

  /** The answer of `/register`. */
  datatype RegisterReply = RegisterFailed(status: int, error: string) | Registered(token: string, idUser: int, displayedName: string)

  /** `/register` as written: the success reply reads an undeclared `idUser`, so once both
      rows are inserted the handler throws and the catch answers 500. */
  function WrittenRegisterReply(req: RegisterRequest, nsu: map<int, NsuRow>): RegisterReply
  {
    match RegisterRefusal(req, nsu)
    case Some(error) => RegisterFailed(400, error)
    case None => RegisterFailed(500, "Database error: idUser is not defined")
  }

  /** `/register` as evidently intended: the token and the id under which both rows were
      stored. */
  function IntendedRegisterReply(req: RegisterRequest, nsu: map<int, NsuRow>, userId: int, token: string): RegisterReply
  {
    match RegisterRefusal(req, nsu)
    case Some(error) => RegisterFailed(400, error)
    case None => Registered(token, userId, req.displayedName.value)
  }

  /** As written, no registration ever succeeds: every accepted request stores its rows
      and is answered 500. */
  lemma RegisterNeverSucceeds(req: RegisterRequest, nsu: map<int, NsuRow>)
    ensures !WrittenRegisterReply(req, nsu).Registered?
    ensures RegisterRefusal(req, nsu).None? <==> WrittenRegisterReply(req, nsu) == RegisterFailed(500, "Database error: idUser is not defined")
  {
  }

  /** The intended reply refuses exactly what the written one refuses, and otherwise
      answers with the id the rows were stored under. */
  lemma IntendedRegisterAnswersStoredId(req: RegisterRequest, nsu: map<int, NsuRow>, userId: int, token: string)
    ensures RegisterRefusal(req, nsu).Some? ==>
      IntendedRegisterReply(req, nsu, userId, token) == WrittenRegisterReply(req, nsu)
    ensures RegisterRefusal(req, nsu).None? ==>
      IntendedRegisterReply(req, nsu, userId, token) == Registered(token, userId, req.displayedName.value)
  {
  }

  /** An element of the create-post `images` body array. */
  datatype Upload = Upload(base64: Option<string>, name: Option<string>)

  const UploadPrefix := "/uploads/"

  /** The path recorded for one upload, or nothing when it is skipped
      (`if (!base64 || !name) continue`). */
  function UploadPath(u: Upload): Option<string>
  {
    if Falsy(u.base64) || Falsy(u.name) then None else Some(UploadPrefix + u.name.value)
  }

  /** The `imagePaths` the create-post loop collects: one path per usable upload, in
      order. */
  function UploadPaths(images: seq<Upload>): (paths: seq<string>)
    ensures |paths| <= |images|
    ensures forall i :: 0 <= i < |paths| ==> StartsWith(paths[i], UploadPrefix)
    ensures forall i :: 0 <= i < |paths| ==>
      exists k :: 0 <= k < |images| && UploadPath(images[k]) == Some(paths[i])
    ensures (forall i :: 0 <= i < |images| ==> UploadPath(images[i]).Some?) ==> |paths| == |images|
  {
    if images == [] then []
    else
      var init := UploadPaths(images[..|images| - 1]);
      match UploadPath(images[|images| - 1])
      case None => init
      case Some(p) => init + [p]
  }

  /** One upload contributes its `/uploads/` path when usable, and nothing otherwise. */
  lemma UploadPathsOne(u: Upload)
    ensures UploadPaths([u]) ==
      (if Falsy(u.base64) || Falsy(u.name) then [] else [UploadPrefix + u.name.value])
  {
    assert [u][..0] == [];
  }

  /** The paths of two runs of uploads are the paths of each, in order: with
      UploadPathsOne this fixes both the count and the contents of the list. */
  lemma {:induction false} UploadPathsAppend(a: seq<Upload>, b: seq<Upload>)
    ensures UploadPaths(a + b) == UploadPaths(a) + UploadPaths(b)
  {
    if b == [] {
      assert a + b == a;
    } else {
      var b' := b[..|b| - 1];
      assert (a + b)[..|a + b| - 1] == a + b';
      assert (a + b)[|a + b| - 1] == b[|b| - 1];
      UploadPathsAppend(a, b');
    }
  }

  /** `!content && (!images || images.length === 0)`: create-post's 400 test. */
  predicate CreateRefused(content: Option<string>, images: Option<seq<Upload>>)
  {
    Falsy(content) && (images.None? || |images.value| == 0)
  }

  /** The answer of the authentication middleware. */
  datatype AuthOutcome = Refused(status: int, error: string) | Authorized(user: int)

  const MissingTokenError := "Access denied, no valid Bearer token provided"

  /** `authenticateToken`: no bearer token gives 401; a token `verify` rejects gives
      403; a token of an unknown user gives 401. */
  function Authenticate(header: Option<string>, verify: string -> Option<int>, users: set<int>): (r: AuthOutcome)
    ensures r.Authorized? <==>
      && BearerToken(header).Some?
      && verify(BearerToken(header).value).Some?
      && verify(BearerToken(header).value).value in users
    ensures r.Authorized? ==> r.user == verify(BearerToken(header).value).value
    ensures r.Refused? ==> (r.status == 403 <==> BearerToken(header).Some? && verify(BearerToken(header).value).None?)
    ensures r.Refused? ==> r.status == 401 || r.status == 403
  {
    match BearerToken(header)
    case None => Refused(401, MissingTokenError)
    case Some(token) =>
      match verify(token)
      case None => Refused(403, "Invalid or expired token")
      case Some(id) => if id in users then Authorized(id) else Refused(401, "Invalid token: user not found")
  }

  /** A request without a usable bearer token is refused before the token verifier or
      the user table is consulted. */
  lemma MissingTokenRefusedFirst(header: Option<string>, v1: string -> Option<int>, u1: set<int>,
                                 v2: string -> Option<int>, u2: set<int>)
    requires header.None? || !Matches(header.value)
    ensures Authenticate(header, v1, u1) == Authenticate(header, v2, u2) == Refused(401, MissingTokenError)
  {
    if header.Some? {
      BearerTokenIsGreedyMatch(header.value);
    }
  }
}
