/**
 * The comment thread of CommentScreen and PostDetailScreen: the loaded comments, the
 * text being typed, the selected image and the like toggle. Both screens share the
 * logic; only CommentScreen grows its input with the content height.
 */
module CommentThread {
  import opened Wrappers
  import opened JsText

  /** A comment as the thread holds it (the other columns are carried unchanged). */
  datatype ThreadComment = ThreadComment(idComment: int, likes: int, likedByMe: bool, text: string)

  /** The body of `addCommentBase64`: the trimmed text and the first selected image. */
  datatype CommentPayload = CommentPayload(content: string, imageBase64: Option<string>)

  /** The like API call `toggleLike` makes, if any. */
  datatype LikeCall = NoCall | LikeComment(id: int) | UnlikeComment(id: int)

  const ImagePrefix := "data:image/jpeg;base64,"
  const MinInputHeight := 40

  /** `findIndex` by id: the first position holding `id`, or -1. */
  function IndexOf(cs: seq<ThreadComment>, id: int): (i: int)
    ensures -1 <= i < |cs|
    ensures i == -1 <==> forall k :: 0 <= k < |cs| ==> cs[k].idComment != id
    ensures i >= 0 ==> cs[i].idComment == id && forall k :: 0 <= k < i ==> cs[k].idComment != id
  {
    if cs == [] then -1
    else if cs[0].idComment == id then 0
    else var j := IndexOf(cs[1..], id); if j == -1 then -1 else j + 1
  }

  /** One like toggle of a comment: unliking takes one away, liking adds one. */
  function Flip(c: ThreadComment): (r: ThreadComment)
    ensures r.idComment == c.idComment && r.text == c.text && r.likedByMe == !c.likedByMe
    ensures r.likes == if c.likedByMe then c.likes - 1 else c.likes + 1
  {
    if c.likedByMe then c.(likes := c.likes - 1, likedByMe := false)
    else c.(likes := c.likes + 1, likedByMe := true)
  }

  /** The comments after `toggleLike(id)`: unchanged when the id is absent or the API
      call throws, otherwise the matched comment flipped. */
  function Toggled(cs: seq<ThreadComment>, id: int, apiOk: bool): seq<ThreadComment>
  {
    var i := IndexOf(cs, id);
    if i == -1 || !apiOk then cs else cs[i := Flip(cs[i])]
  }

  /** Toggling keeps length, order and every other comment; the matched one flips. */
  lemma ToggleFrame(cs: seq<ThreadComment>, id: int, apiOk: bool)
    ensures |Toggled(cs, id, apiOk)| == |cs|
    ensures forall k :: 0 <= k < |cs| && k != IndexOf(cs, id) ==> Toggled(cs, id, apiOk)[k] == cs[k]
    ensures IndexOf(cs, id) == -1 || !apiOk ==> Toggled(cs, id, apiOk) == cs
    ensures IndexOf(cs, id) >= 0 && apiOk ==>
      Toggled(cs, id, apiOk)[IndexOf(cs, id)] == Flip(cs[IndexOf(cs, id)])
  {
  }

  /** Two successful toggles of the same comment restore the thread. */
  lemma ToggleTwiceRestores(cs: seq<ThreadComment>, id: int)
    ensures Toggled(Toggled(cs, id, true), id, true) == cs
  {
    var i := IndexOf(cs, id);
    if i >= 0 {
      var once := cs[i := Flip(cs[i])];
      IndexOfAfterUpdate(cs, i, Flip(cs[i]));
      assert IndexOf(once, id) == i;
      assert once[i := Flip(once[i])] == cs;
    }
  }

  /** Replacing the first occurrence of an id by an element with the same id does not
      move that first occurrence. */
  lemma IndexOfAfterUpdate(cs: seq<ThreadComment>, i: int, c: ThreadComment)
    requires 0 <= i < |cs| && IndexOf(cs, cs[i].idComment) == i && c.idComment == cs[i].idComment
    ensures IndexOf(cs[i := c], c.idComment) == i
  {
    var cs' := cs[i := c];
    assert forall k :: 0 <= k < i ==> cs'[k] == cs[k];
  }

  /** The message `sendComment` posts, or None when the text is blank and no image is
      selected. */
  function Payload(newComment: string, selectedImages: seq<string>): Option<CommentPayload>
  {
    var content := Trim(newComment);
    if content == [] && |selectedImages| == 0 then None
    else Some(CommentPayload(content, if |selectedImages| > 0 && selectedImages[0] != [] then Some(selectedImages[0]) else None))
  }

  /** Nothing is sent exactly when the text is white space only and no image is
      selected; what is sent is the trimmed text, which starts and ends with a
      non-space character, and the first selected image when there is one. */
  lemma PayloadSpec(newComment: string, selectedImages: seq<string>)
    ensures var p := Payload(newComment, selectedImages);
      && (p.None? <==> AllSpace(newComment) && selectedImages == [])
      && (p.Some? ==> p.value.content == Trim(newComment) && !IsSpaceAt(p.value.content))
      && (p.Some? ==> (p.value.imageBase64.Some? <==> selectedImages != [] && selectedImages[0] != []))
  {
    TrimEmptyIffAllSpace(newComment);
    TrimIsSlice(newComment);
  }

  /** The trimmed text neither starts nor ends with whitespace. */
  predicate IsSpaceAt(s: string)
  {
    s != [] && (IsSpace(s[0]) || IsSpace(s[|s| - 1]))
  }

  /** The comment list and input state of one screen. */
  class Thread {
    var comments: seq<ThreadComment>
    var newComment: string
    var selectedImages: seq<string>
    var inputHeight: int

    ghost predicate Valid()
      reads this
    {
      && |selectedImages| <= 1
      && (forall k :: 0 <= k < |selectedImages| ==> StartsWith(selectedImages[k], ImagePrefix))
      && inputHeight >= MinInputHeight
    }

    /** The state after the initial fetch. */
    constructor(loaded: seq<ThreadComment>)
      ensures Valid()
      ensures comments == loaded && newComment == [] && selectedImages == [] && inputHeight == MinInputHeight
    {
      comments, newComment, selectedImages, inputHeight := loaded, [], [], MinInputHeight;
    }

    /** `updatedComments.findIndex(c => c.idComment === id)`. */
    method FindIndex(id: int) returns (index: int)
      ensures -1 <= index < |comments|
      ensures index == -1 <==> forall k :: 0 <= k < |comments| ==> comments[k].idComment != id
      ensures index >= 0 ==> comments[index].idComment == id && forall k :: 0 <= k < index ==> comments[k].idComment != id
    {
      var k := 0;
      while k < |comments|
        invariant 0 <= k <= |comments|
        invariant forall j :: 0 <= j < k ==> comments[j].idComment != id
      {
        if comments[k].idComment == id {
          return k;
        }
        k := k + 1;
      }
      return -1;
    }

    /** `toggleLike(item)`: find the comment, call unlike or like for it, and when the
        call succeeds flip it in place. `apiOk` is whether the awaited call succeeded. */
    method ToggleLike(id: int, apiOk: bool) returns (call: LikeCall)
      requires Valid()
      modifies this
      ensures Valid()
      ensures comments == Toggled(old(comments), id, apiOk)
      ensures IndexOf(old(comments), id) == -1 <==> call == NoCall
      ensures IndexOf(old(comments), id) >= 0 ==>
        call == if old(comments)[IndexOf(old(comments), id)].likedByMe then UnlikeComment(id) else LikeComment(id)
      ensures newComment == old(newComment) && selectedImages == old(selectedImages) && inputHeight == old(inputHeight)
    {
      var index := FindIndex(id);
      if index == -1 {
        return NoCall;
      }
      assert index == IndexOf(comments, id);
      var current := comments[index];
      call := if current.likedByMe then UnlikeComment(id) else LikeComment(id);
      if apiOk {
        comments := comments[index := Flip(current)];
      }
    }

    /** `sendComment`: nothing on a blank message; otherwise post the payload and, when
        the server answers with the new comment, append it and clear the input and the
        selection. */
    method SendComment(reply: Option<ThreadComment>) returns (sent: Option<CommentPayload>)
      requires Valid()
      modifies this
      ensures Valid()
      ensures sent == Payload(old(newComment), old(selectedImages))
      ensures sent.None? || reply.None? ==>
        comments == old(comments) && newComment == old(newComment) && selectedImages == old(selectedImages)
      ensures sent.Some? && reply.Some? ==>
        comments == old(comments) + [reply.value] && newComment == [] && selectedImages == []
      ensures inputHeight == old(inputHeight)
    {
      sent := Payload(newComment, selectedImages);
      if sent.Some? && reply.Some? {
        comments := comments + [reply.value];
        newComment := [];
        selectedImages := [];
      }
    }

    /** `pickImage`: a picked asset with base64 data replaces the selection with its
        data URI; a cancelled pick or an asset without data changes nothing. */
    method PickImage(canceled: bool, base64: Option<string>)
      requires Valid()
      modifies this
      ensures Valid()
      ensures !canceled && base64.Some? && base64.value != [] ==> selectedImages == [ImagePrefix + base64.value]
      ensures canceled || base64.None? || base64.value == [] ==> selectedImages == old(selectedImages)
      ensures comments == old(comments) && newComment == old(newComment) && inputHeight == old(inputHeight)
    {
      if !canceled && base64.Some? && base64.value != [] {
        selectedImages := [ImagePrefix + base64.value];
      }
    }

    /** `onChangeText`. */
    method SetText(text: string)
      requires Valid()
      modifies this
      ensures Valid()
      ensures newComment == text
      ensures comments == old(comments) && selectedImages == old(selectedImages) && inputHeight == old(inputHeight)
    {
      newComment := text;
    }

    /** `onContentSizeChange` (CommentScreen): the input follows the content height but
        never shrinks below 40. */
    method ContentSizeChanged(height: int)
      requires Valid()
      modifies this
      ensures Valid()
      ensures inputHeight == if height < MinInputHeight then MinInputHeight else height
      ensures comments == old(comments) && newComment == old(newComment) && selectedImages == old(selectedImages)
    {
      inputHeight := if height < MinInputHeight then MinInputHeight else height;
    }
  }
}
