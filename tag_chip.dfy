/**
 * The tag chip (frontend/components/Tag.js and components/Tag.tsx): whether the viewer
 * follows the tag, the follow toggle on press, and the label.
 */
module TagChip {
  import opened Wrappers

  /** Which chip: Tag.js prefixes the label with '#' and calls `onRefresh()` only when
      it is given; Tag.tsx calls `onRefresh(isFollowed)` unconditionally. */
  datatype ChipFlavor = ChipJs | ChipTsx

  /** The API call a press makes. */
  datatype FollowCall = FollowTagCall(name: string) | UnfollowTagCall(name: string)

  /** What a press does with `onRefresh`: nothing, a call with no argument, a call with
      the follow state read before the toggle, or a call of the missing callback, which
      throws a TypeError that the press's own `catch` swallows. */
  datatype RefreshEffect = NoRefresh | RefreshCalled | RefreshCalledWith(wasFollowed: bool) | RefreshMissing

  const MaxLabelLength := 20
  const UnknownLabel := "unknown"

  /** `tag.substring(0, 20) || 'unknown'`, with the '#' of Tag.js in front. */
  function Label(f: ChipFlavor, tag: string): string
  {
    (if f == ChipJs then "#" else "") + (if tag == [] then UnknownLabel else tag[..if |tag| < MaxLabelLength then |tag| else MaxLabelLength])
  }

  /** The label is the tag's first 20 characters, or "unknown" for an empty tag, after
      a '#' in Tag.js only. */
  lemma LabelShape(f: ChipFlavor, tag: string)
    ensures var body := if f == ChipJs then Label(f, tag)[1..] else Label(f, tag);
      && (f == ChipJs ==> Label(f, tag)[0] == '#')
      && (tag == [] ==> body == UnknownLabel)
      && (tag != [] ==> 1 <= |body| <= MaxLabelLength && body == tag[..|body|])
      && (0 < |tag| <= MaxLabelLength ==> body == tag)
  {
  }

  /** What a press does with the callback. */
  function RefreshOf(f: ChipFlavor, hasOnRefresh: bool, wasFollowed: bool): RefreshEffect
  {
    match f
    case ChipJs => if hasOnRefresh then RefreshCalled else NoRefresh
    case ChipTsx => if hasOnRefresh then RefreshCalledWith(wasFollowed) else RefreshMissing
  }

  class Chip {
    const flavor: ChipFlavor
    const tag: string
    var isFollowed: bool

    constructor(f: ChipFlavor, t: string)
      ensures flavor == f && tag == t && !isFollowed
    {
      flavor, tag, isFollowed := f, t, false;
    }

    /** `checkFollowStatus` (Tag.js) and the mount effect (Tag.tsx): the state becomes
        whether the followed tags include this one; a failed request leaves it. */
    method CheckFollowStatus(followed: Option<seq<string>>)
      modifies this
      ensures isFollowed == if followed.Some? then tag in followed.value else old(isFollowed)
    {
      if followed.Some? {
        isFollowed := tag in followed.value;
      }
    }

    /** `handleTagPress`: unfollows a followed tag and follows another; the state is
        negated only once the call has returned, and the refresh callback runs after
        that. */
    method Press(apiOk: bool, hasOnRefresh: bool) returns (call: FollowCall, refresh: RefreshEffect)
      modifies this
      ensures call == if old(isFollowed) then UnfollowTagCall(tag) else FollowTagCall(tag)
      ensures isFollowed == if apiOk then !old(isFollowed) else old(isFollowed)
      ensures refresh == if apiOk then RefreshOf(flavor, hasOnRefresh, old(isFollowed)) else NoRefresh
    {
      var was := isFollowed;
      call := if was then UnfollowTagCall(tag) else FollowTagCall(tag);
      refresh := NoRefresh;
      if apiOk {
        isFollowed := !was;
        refresh := RefreshOf(flavor, hasOnRefresh, was);
      }
    }
  }
}
