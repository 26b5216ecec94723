/**
 * One comment bubble (frontend/components/Comment.js): whether it is the viewer's own,
 * whether the viewer liked it, its like count and its image URLs.
 */
module CommentView {
  import opened Wrappers

  const BaseUrl := "http://localhost:3000"

  /** A row of `getCommentLikes`: who liked the comment. */
  datatype LikeRow = LikeRow(idUser: int)

  /** `isMine`: the comment was written by the current user. */
  predicate IsMine(createdBy: int, me: int)
  {
    createdBy == me
  }

  /** Some like row belongs to the user. */
  predicate LikedBy(rows: seq<LikeRow>, me: int)
  {
    exists i | 0 <= i < |rows| :: rows[i].idUser == me
  }

  /** `likes.length || 0`: the number of like rows. */
  function LikeCount(rows: seq<LikeRow>): (n: nat)
    ensures n == 0 <==> rows == []
  {
    |rows|
  }

  /** `comment.images?.map(src => BASE_URL + src)`: none when the field is absent. */
  function ImageUrls(images: Option<seq<string>>): (urls: seq<string>)
    ensures images.None? ==> urls == []
    ensures images.Some? ==>
      (|urls| == |images.value| && forall i :: 0 <= i < |urls| ==> urls[i] == BaseUrl + images.value[i])
  {
    match images
    case None => []
    case Some(srcs) => UrlsOf(srcs)
  }

  function UrlsOf(srcs: seq<string>): (urls: seq<string>)
    ensures |urls| == |srcs| && forall i :: 0 <= i < |urls| ==> urls[i] == BaseUrl + srcs[i]
  {
    if srcs == [] then [] else [BaseUrl + srcs[0]] + UrlsOf(srcs[1..])
  }

  /** The state `getLikes` sets. */
  class CommentCard {
    var likes: seq<LikeRow>
    var likedByMe: bool

    constructor()
      ensures likes == [] && !likedByMe
    {
      likes, likedByMe := [], false;
    }

    /** `getLikes`: stores the rows, then walks them setting `likedByMe` on every row
        of the current user; if none matched, clears it. */
    method GetLikes(data: seq<LikeRow>, me: int)
      modifies this
      ensures likes == data
      ensures likedByMe <==> LikedBy(data, me)
    {
      likes := data;
      var tested := true;
      var i := 0;
      while i < |data|
        invariant 0 <= i <= |data|
        invariant likes == data
        invariant !tested <==> exists k | 0 <= k < i :: data[k].idUser == me
        invariant !tested ==> likedByMe
      {
        if data[i].idUser == me {
          likedByMe := true;
          tested := false;
        }
        i := i + 1;
      }
      if tested {
        likedByMe := false;
      }
    }
  }
}
