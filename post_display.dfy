/**
 * One post card (components/Post.js): the like toggle, the owner-only delete, and the
 * tags and media the card derives from the post it is given.
 */
module PostDisplay {
  import opened Wrappers
  import opened JsText
  import opened ServerPaging

  /** A list-valued column as the card receives it: an array (`GET /post/:id` and the
      create-post reply split the column), the raw comma-separated string (the listing
      endpoints return the row as stored), or null. */
  datatype ListField = Items(items: seq<string>) | Text(text: string) | Absent

  const MaxShownTags := 4
  const AnonymousName := "Anonymous"

  /** The elements the field lists: an array as it is, a string split on commas. */
  function Pieces(f: ListField): seq<string>
  {
    match f
    case Items(xs) => xs
    case Text(t) => Split(t, ',')
    case Absent => []
  }

  /** `post.tags?.length > 0`: whether the tag row is rendered at all. */
  predicate HasTags(f: ListField)
  {
    match f
    case Items(xs) => |xs| > 0
    case Text(t) => |t| > 0
    case Absent => false
  }

  function Reverse<T>(s: seq<T>): (r: seq<T>)
    ensures |r| == |s| && forall i :: 0 <= i < |s| ==> r[i] == s[|s| - 1 - i]
  {
    if s == [] then [] else Reverse(s[1..]) + [s[0]]
  }

  /** The tags the card shows: nothing when the row is hidden, otherwise
      `slice(0, 4).reverse()` of the array or of the string's comma pieces. The card
      shows the first four tags, the fourth one first. */
  function ShownTags(f: ListField): (shown: seq<string>)
    ensures |shown| <= MaxShownTags
    ensures |shown| == if HasTags(f) then Min(MaxShownTags, |Pieces(f)|) else 0
    ensures forall i :: 0 <= i < |shown| ==> shown[i] == Pieces(f)[|shown| - 1 - i]
  {
    if !HasTags(f) then []
    else
      var ps := Pieces(f);
      Reverse(ps[..Min(MaxShownTags, |ps|)])
  }

  /** A post shows the same tags whether it arrives as a stored row or split by
      `GET /post/:id`, as long as its tag column is not empty. */
  lemma ShownTagsAgree(t: string)
    requires t != []
    ensures ShownTags(Text(t)) == ShownTags(Items(Split(t, ',')))
  {
  }

  /** `filter(Boolean)` on strings: the non-empty elements, in order. */
  function DropEmpty(parts: seq<string>): (r: seq<string>)
    ensures |r| <= |parts|
    ensures forall i :: 0 <= i < |r| ==> r[i] != []
    ensures forall x :: x in r <==> x in parts && x != []
  {
    if parts == [] then []
    else if parts[0] == [] then DropEmpty(parts[1..])
    else [parts[0]] + DropEmpty(parts[1..])
  }

  lemma {:induction false} DropEmptyKeepsFull(parts: seq<string>)
    requires forall i :: 0 <= i < |parts| ==> parts[i] != []
    ensures DropEmpty(parts) == parts
  {
    if parts != [] {
      DropEmptyKeepsFull(parts[1..]);
      assert [parts[0]] + parts[1..] == parts;
    }
  }

  /** `mediaItems`: an array as it is, a string's non-empty comma pieces, or nothing. */
  function MediaItems(f: ListField): seq<string>
  {
    match f
    case Items(xs) => xs
    case Text(t) => DropEmpty(Split(t, ','))
    case Absent => []
  }

  /** Paths that survive a round trip through a comma-joined column: none is empty and
      none holds a comma. */
  predicate ColumnSafe(paths: seq<string>)
  {
    forall i :: 0 <= i < |paths| ==> paths[i] != [] && ',' !in paths[i]
  }

  /** The media the card lists from a stored image column are exactly the upload paths
      the server joined into it, in order; an empty column lists nothing. */
  lemma MediaOfStoredPaths(paths: seq<string>)
    requires ColumnSafe(paths)
    ensures MediaItems(Text(Join(paths, ','))) == paths
  {
    if paths == [] {
      assert Split([], ',') == [[]];
    } else {
      SplitJoin(paths, ',');
      DropEmptyKeepsFull(paths);
    }
  }

  /** `/\.(mp4|mov|m4v)$/.test(item)`: case-sensitive, at the very end. */
  predicate IsVideo(item: string)
  {
    EndsWith(item, ".mp4") || EndsWith(item, ".mov") || EndsWith(item, ".m4v")
  }

  /** A name renders as a video exactly when it is some name followed by one of the
      three extensions. */
  lemma IsVideoIffExtension(item: string)
    ensures IsVideo(item) <==>
      exists stem: string, ext :: ext in {"mp4", "mov", "m4v"} && item == stem + "." + ext
  {
    if IsVideo(item) {
      var stem := item[..|item| - 4];
      var ext := item[|item| - 3..];
      var tail := item[|item| - 4..];
      assert tail in {".mp4", ".mov", ".m4v"};
      assert ext == tail[1..];
      assert item == stem + "." + ext;
    }
    forall stem: string, ext | ext in {"mp4", "mov", "m4v"} && item == stem + "." + ext
      ensures IsVideo(item)
    {
      assert item[|item| - 4..] == "." + ext;
    }
  }

  /** The name in the header: "Anonymous" for an anonymous post, else the creator's. */
  function ShownName(isAnonymous: bool, creatorName: string): string
  {
    if isAnonymous then AnonymousName else creatorName
  }

  /** An anonymous post reveals nothing of its creator's name. */
  lemma AnonymousHidesCreator(a: string, b: string)
    ensures ShownName(true, a) == ShownName(true, b) == AnonymousName
    ensures ShownName(false, a) == a
  {
  }

  /** `myPost`: the signed-in user (null when unknown) is the post's creator. */
  predicate MyPost(me: Option<int>, createdBy: int)
  {
    me.Some? && me.value == createdBy
  }

  /** How the delete request ended: the reply's `success`, or a thrown error. */
  datatype DeleteResult = Answered(success: bool) | DeleteThrew

  /** What `deletePost` does. */
  datatype DeleteReaction = NotCreatorAlert | Requested(refreshed: bool) | FailedAlert

  function DeleteReactionOf(myPost: bool, result: DeleteResult): DeleteReaction
  {
    if !myPost then NotCreatorAlert
    else match result
      case Answered(success) => Requested(success)
      case DeleteThrew => FailedAlert
  }

  /** The delete request is sent exactly for the viewer's own post, and the list is
      refreshed exactly when the server reports success. */
  lemma DeleteOnlyOwn(me: Option<int>, createdBy: int, result: DeleteResult)
    ensures var r := DeleteReactionOf(MyPost(me, createdBy), result);
      && (r == NotCreatorAlert <==> me.None? || me.value != createdBy)
      && (r == Requested(true) <==> MyPost(me, createdBy) && result == Answered(true))
  {
  }

  /** The like state of a card. */
  datatype LikeState = LikeState(liked: bool, likes: int)

  /** Which like endpoint `handleLike` calls. */
  datatype PostLikeCall = LikePost | UnlikePost

  /** The state after `handleLike`: unchanged when the awaited call throws. */
  function AfterLike(s: LikeState, apiOk: bool): LikeState
  {
    if !apiOk then s
    else if s.liked then LikeState(false, s.likes - 1)
    else LikeState(true, s.likes + 1)
  }

  /** A successful toggle flips `liked` and moves the count by one in its direction; a
      failed one changes nothing. */
  lemma AfterLikeMoves(s: LikeState, apiOk: bool)
    ensures var r := AfterLike(s, apiOk);
      && (apiOk ==> r.liked == !s.liked && r.likes - s.likes == (if s.liked then -1 else 1))
      && (!apiOk ==> r == s)
  {
  }

  /** Liking and then unliking (or the reverse) restores the card. */
  lemma LikeTwiceRestores(s: LikeState)
    ensures AfterLike(AfterLike(s, true), true) == s
  {
  }

  /** The card's mutable like state; `likes` is the count field of the post object. */
  class PostCard {
    var liked: bool
    var likes: int

    function State(): LikeState
      reads this
    {
      LikeState(liked, likes)
    }

    /** `useState(post.likedByCurrentUser || false)`. */
    constructor(likedByCurrentUser: bool, likes0: int)
      ensures State() == LikeState(likedByCurrentUser, likes0)
    {
      liked, likes := likedByCurrentUser, likes0;
    }

    /** `handleLike`: calls unlike when liked, like otherwise; the state changes only
        after the call returns. */
    method HandleLike(apiOk: bool) returns (call: PostLikeCall)
      modifies this
      ensures call == if old(liked) then UnlikePost else LikePost
      ensures State() == AfterLike(old(State()), apiOk)
    {
      call := if liked then UnlikePost else LikePost;
      if apiOk {
        if liked {
          liked := false;
          likes := likes - 1;
        } else {
          liked := true;
          likes := likes + 1;
        }
      }
    }
  }
}
