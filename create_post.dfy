/**
 * The post composer of frontend/components/CreatePost.js and components/CreatePost.tsx:
 * the text, the picked media, up to four tag inputs, and the submit that builds the
 * payload for `POST /posts`.
 */
module CreatePost {
  import opened Wrappers
  import opened JsText
  import opened ServerStore

  /** Which composer. `propsDestructured` is false for CreatePost.tsx as written, which
      receives its props object as `navigation`. */
  datatype Flavor = Js | Tsx(propsDestructured: bool)

  /** A picked media item: its URI, 'image' or 'video', and its MIME type. */
  datatype MediaItem = MediaItem(uri: string, kind: string, mimeType: string)

  /** An asset returned by the image picker. */
  datatype Asset = Asset(uri: string, assetType: Option<string>, mimeType: Option<string>)

  /** An element of the payload's `images`. */
  datatype UploadFile = UploadFile(name: string, mimeType: string, base64: string)

  /** The body posted to `POST /posts`. */
  datatype PostPayload = PostPayload(content: string, tags: string, isAnonymous: bool, images: seq<UploadFile>)

  /** How the awaited `addPost` ended. */
  datatype SubmitOutcome = Posted(post: CreatedPost) | Threw(message: string)

  /** The composer's state. */
  datatype Form = Form(content: string, media: seq<MediaItem>, inputs: seq<string>,
                               error: Option<string>, isDisabled: bool, posts: seq<CreatedPost>)

  const MaxTagInputs := 4
  const MaxContentLength := 10000
  const ContentRequired := "Content or media is required"
  const SubmitFailed := "Failed to submit post"
  /** The message of the TypeError thrown by calling `navigate` on the props object. */
  const NavigateTypeError := "navigation.navigate is not a function"

  /** The error state before any submit: null in the .js file, the string 'null' in the
      .tsx file. */
  function NoError(f: Flavor): Option<string>
  {
    if f.Js? then None else Some("null")
  }

  function InitialForm(f: Flavor): (c: Form)
    ensures c.inputs == [[]] && c.content == [] && c.media == [] && !c.isDisabled
  {
    Form([], [], [[]], NoError(f), false, [])
  }

  ghost predicate FormValid(c: Form)
  {
    1 <= |c.inputs| <= MaxTagInputs && |c.content| <= MaxContentLength
  }

  /** `inputs.filter(tag => tag.trim()).map(tag => tag.trim())`. */
  function TagArray(inputs: seq<string>): (tags: seq<string>)
    ensures |tags| <= |inputs|
  {
    if inputs == [] then []
    else
      var t := Trim(inputs[0]);
      if t == [] then TagArray(inputs[1..]) else [t] + TagArray(inputs[1..])
  }

  /** No tag is empty, and every tag is already trimmed. */
  lemma {:induction false} TagArrayTrimmed(inputs: seq<string>)
    ensures forall i :: 0 <= i < |TagArray(inputs)| ==> TagArray(inputs)[i] != [] && Trim(TagArray(inputs)[i]) == TagArray(inputs)[i]
  {
    if inputs != [] {
      TagArrayTrimmed(inputs[1..]);
      TrimIdempotent(inputs[0]);
      var t, rest := Trim(inputs[0]), TagArray(inputs[1..]);
      var all := TagArray(inputs);
      assert all == if t == [] then rest else [t] + rest;
      forall i | 0 <= i < |all| ensures all[i] != [] && Trim(all[i]) == all[i] {
        if t != [] && i == 0 {
          assert all[i] == t;
        } else if t != [] {
          assert all[i] == rest[i - 1];
        } else {
          assert all[i] == rest[i];
        }
      }
    }
  }

  /** The tags keep the order of their inputs: the tags of two runs of inputs are the
      tags of the first run followed by those of the second. */
  lemma {:induction false} TagArrayAppend(a: seq<string>, b: seq<string>)
    ensures TagArray(a + b) == TagArray(a) + TagArray(b)
  {
    if a == [] {
      assert a + b == b;
    } else {
      assert (a + b)[0] == a[0] && (a + b)[1..] == a[1..] + b;
      TagArrayAppend(a[1..], b);
    }
  }

  /** A blank input contributes nothing and any other input contributes itself
      trimmed. */
  lemma TagArrayOne(x: string)
    ensures TagArray([x]) == if AllSpace(x) then [] else [Trim(x)]
  {
    TrimEmptyIffAllSpace(x);
  }

  /** `tagArray.join(',')`: the tags field of the payload. */
  function TagPayload(inputs: seq<string>): string
  {
    Join(TagArray(inputs), ',')
  }

  /** `item.mimeType?.split('/')[1] || 'jpg'`. */
  function Extension(mimeType: string): (ext: string)
    ensures ext != []
  {
    var parts := Split(mimeType, '/');
    if |parts| >= 2 && parts[1] != [] then parts[1] else "jpg"
  }

  /** For a MIME type `type/subtype` the extension is the subtype; without a `/` it is
      "jpg". */
  lemma ExtensionOfSubtype(t: string, sub: string)
    requires '/' !in t && '/' !in sub && sub != []
    ensures Extension(t + "/" + sub) == sub
    ensures Extension(t) == "jpg"
  {
    SplitConcat(t, sub, '/');
    SplitNoSep(t, '/');
    SplitNoSep(sub, '/');
    assert t + "/" + sub == t + ['/'] + sub;
  }

  /** `${kind}-${time}-${index}`; the .js file always writes 'image'. */
  function FileStem(f: Flavor, item: MediaItem, time: nat, index: nat): string
  {
    (if f.Js? then "image" else item.kind) + "-" + Decimal(time) + "-" + Decimal(index)
  }

  /** `${kind}-${time}-${index}.${extension}`. */
  function FileName(f: Flavor, item: MediaItem, time: nat, index: nat): string
  {
    FileStem(f, item, time, index) + "." + Extension(item.mimeType)
  }

  /** The name of an item whose MIME type is `type/subtype` ends in "." and the
      subtype. */
  lemma FileNameOfSubtype(f: Flavor, item: MediaItem, time: nat, index: nat, t: string, sub: string)
    requires item.mimeType == t + "/" + sub
    requires '/' !in t && '/' !in sub && sub != []
    ensures FileName(f, item, time, index) == FileStem(f, item, time, index) + ("." + sub)
  {
    ExtensionOfSubtype(t, sub);
  }

  /** The upload of one media item, given the base64 its data URL carried and the clock
      reading. */
  function UploadOf(f: Flavor, item: MediaItem, time: nat, index: nat, base64: string): UploadFile
  {
    UploadFile(FileName(f, item, time, index),
               if item.mimeType != [] then item.mimeType else if f.Js? then "image/jpeg" else "application/octet-stream",
               base64)
  }

  /** `media.map(...)` under `Promise.all`: one upload per item, in order. */
  function Uploads(f: Flavor, media: seq<MediaItem>, times: seq<nat>, base64s: seq<string>, from: nat): (r: seq<UploadFile>)
    requires |times| == |media| == |base64s|
    requires from <= |media|
    ensures |r| == |media| - from
    decreases |media| - from
  {
    if from == |media| then []
    else [UploadOf(f, media[from], times[from], from, base64s[from])] + Uploads(f, media, times, base64s, from + 1)
  }

  /** The upload at position `i` is named after item `i`, its index and its clock
      reading, and carries its MIME type and data. */
  lemma {:induction false} UploadsPointwise(f: Flavor, media: seq<MediaItem>, times: seq<nat>, base64s: seq<string>, from: nat, i: nat)
    requires |times| == |media| == |base64s| && from + i < |media|
    ensures Uploads(f, media, times, base64s, from)[i] == UploadOf(f, media[from + i], times[from + i], from + i, base64s[from + i])
    decreases i
  {
    var head := UploadOf(f, media[from], times[from], from, base64s[from]);
    var tail := Uploads(f, media, times, base64s, from + 1);
    assert Uploads(f, media, times, base64s, from) == [head] + tail;
    if i > 0 {
      UploadsPointwise(f, media, times, base64s, from + 1, i - 1);
      assert ([head] + tail)[i] == tail[i - 1];
    }
  }

  /** The media item for a picked asset. The .js picker types every item an image and
      defaults the MIME type to image/jpeg; the .tsx picker types it a video iff the asset
      is one, and defaults the MIME type to image/jpeg for images and video/mp4
      otherwise. */
  function Picked(f: Flavor, a: Asset): (m: MediaItem)
    ensures m.uri == a.uri
    ensures f.Js? ==> m.kind == "image"
    ensures f.Tsx? ==> (m.kind == "video" <==> a.assetType == Some("video"))
    ensures m.mimeType != []
  {
    var given := a.mimeType.Some? && a.mimeType.value != [];
    if f.Js? then MediaItem(a.uri, "image", if given then a.mimeType.value else "image/jpeg")
    else MediaItem(a.uri, if a.assetType == Some("video") then "video" else "image",
                   if given then a.mimeType.value
                   else if a.assetType == Some("image") then "image/jpeg" else "video/mp4")
  }

  function PickedAll(f: Flavor, assets: seq<Asset>): (r: seq<MediaItem>)
    ensures |r| == |assets| && forall i :: 0 <= i < |r| ==> r[i] == Picked(f, assets[i])
  {
    if assets == [] then [] else [Picked(f, assets[0])] + PickedAll(f, assets[1..])
  }

  /** `!content.trim() && media.length === 0`. */
  predicate Blank(c: Form)
  {
    Trim(c.content) == [] && c.media == []
  }

  /** The payload a non-blank submit posts. */
  function Payload(f: Flavor, c: Form, isAnonymous: bool, times: seq<nat>, base64s: seq<string>): PostPayload
    requires |times| == |c.media| == |base64s|
  {
    PostPayload(Trim(c.content), TagPayload(c.inputs), isAnonymous, Uploads(f, c.media, times, base64s, 0))
  }

  /** The state after `submitPost`. A blank submit only sets the error (and the .js
      file re-enables the buttons). A successful one resets the form and navigates;
      in the .tsx file as written the navigation call throws, so the error ends up
      holding the TypeError's message. A failed one stores the error's message. The
      .tsx file never re-enables the buttons. */
  function AfterSubmit(f: Flavor, c: Form, outcome: SubmitOutcome): Form
  {
    var disabled := !f.Js?;
    if Blank(c) then c.(error := Some(ContentRequired), isDisabled := disabled)
    else match outcome
      case Posted(post) =>
        var reset := Form([], [], [[]], NoError(f), disabled, [post] + c.posts);
        if f == Tsx(false) then reset.(error := Some(NavigateTypeError)) else reset
      case Threw(message) =>
        c.(error := Some(if message == [] then SubmitFailed else message), isDisabled := disabled)
  }

  /** Whether the submit reaches `navigate('Main')` without throwing. */
  predicate Navigates(f: Flavor, c: Form, outcome: SubmitOutcome)
  {
    !Blank(c) && outcome.Posted? && f != Tsx(false)
  }

  /** A successful submit empties the form (the error aside); the .js file clears the
      error and re-enables the buttons. */
  lemma SuccessResetsForm(f: Flavor, c: Form, post: CreatedPost)
    requires !Blank(c)
    ensures var r := AfterSubmit(f, c, Posted(post));
      r.content == [] && r.media == [] && r.inputs == [[]] && r.posts == [post] + c.posts
      && FormValid(r)
      && (f.Js? ==> r.error.None? && !r.isDisabled)
  {
  }

  /** CreatePost.tsx as written: a post the server accepted is reported as an error and
      the screen does not navigate away. */
  lemma TsxSuccessReportsTypeError(c: Form, post: CreatedPost)
    requires !Blank(c)
    ensures AfterSubmit(Tsx(false), c, Posted(post)).error == Some(NavigateTypeError)
    ensures !Navigates(Tsx(false), c, Posted(post))
  {
  }

  /** With the props destructured, a successful submit navigates and leaves no error. */
  lemma TsxIntendedNavigates(c: Form, post: CreatedPost)
    requires !Blank(c)
    ensures AfterSubmit(Tsx(true), c, Posted(post)).error == NoError(Tsx(true))
    ensures Navigates(Tsx(true), c, Posted(post))
  {
  }

  /** A blank submit never posts and keeps the form; only the .js file re-enables the
      buttons. */
  lemma BlankSubmitKeepsForm(f: Flavor, c: Form, outcome: SubmitOutcome)
    requires Blank(c)
    ensures var r := AfterSubmit(f, c, outcome);
      r.content == c.content && r.media == c.media && r.inputs == c.inputs && r.posts == c.posts
      && r.error == Some(ContentRequired) && (r.isDisabled <==> f.Tsx?)
  {
  }

  /** The composer component. */
  class Composer {
    const flavor: Flavor
    var content: string
    var media: seq<MediaItem>
    var inputs: seq<string>
    var error: Option<string>
    var isDisabled: bool
    var posts: seq<CreatedPost>

    function State(): Form
      reads this
    {
      Form(content, media, inputs, error, isDisabled, posts)
    }

    constructor(f: Flavor)
      ensures flavor == f && State() == InitialForm(f) && FormValid(State())
    {
      flavor := f;
      content, media, inputs, error, isDisabled, posts := [], [], [[]], NoError(f), false, [];
    }

    /** `handleInputChange(index, value)`: only that input changes. */
    method HandleInputChange(index: int, value: string)
      requires FormValid(State()) && 0 <= index < |inputs|
      modifies this
      ensures FormValid(State())
      ensures State() == old(State()).(inputs := old(inputs)[index := value])
    {
      inputs := inputs[index := value];
    }

    /** `addInput`: one more empty input, up to four. */
    method AddInput()
      requires FormValid(State())
      modifies this
      ensures FormValid(State())
      ensures State() == old(State()).(inputs := if |old(inputs)| < MaxTagInputs then old(inputs) + [[]] else old(inputs))
    {
      if |inputs| < MaxTagInputs {
        inputs := inputs + [[]];
      }
    }

    /** `onChangeText`: an edit longer than 10000 characters is ignored. */
    method ChangeText(text: string)
      requires FormValid(State())
      modifies this
      ensures FormValid(State())
      ensures State() == old(State()).(content := if |text| <= MaxContentLength then text else old(content))
    {
      if |text| <= MaxContentLength {
        content := text;
      }
    }

    /** `pickMedia`: the picked assets are appended after the existing media. */
    method PickMedia(canceled: bool, assets: seq<Asset>)
      requires FormValid(State())
      modifies this
      ensures FormValid(State())
      ensures State() == old(State()).(media := if canceled then old(media) else old(media) + PickedAll(flavor, assets))
    {
      if !canceled {
        media := media + PickedAll(flavor, assets);
      }
    }

    /** `submitPost`: `times` and `base64s` are the clock readings and file contents for
        the media items; `outcome` is how `addPost` ended. Returns the payload posted, if
        any, and whether the screen navigated to Main. */
    method Submit(isAnonymous: bool, times: seq<nat>, base64s: seq<string>, outcome: SubmitOutcome)
      returns (payload: Option<PostPayload>, navigated: bool)
      requires FormValid(State()) && |times| == |media| == |base64s|
      modifies this
      ensures FormValid(State())
      ensures State() == AfterSubmit(flavor, old(State()), outcome)
      ensures payload == if Blank(old(State())) then None else Some(Payload(flavor, old(State()), isAnonymous, times, base64s))
      ensures navigated == Navigates(flavor, old(State()), outcome)
    {
      ghost var before := State();
      if Trim(content) == [] && |media| == 0 {
        error := Some(ContentRequired);
        isDisabled := !flavor.Js?;
        return None, false;
      }
      payload := Some(Payload(flavor, State(), isAnonymous, times, base64s));
      match outcome {
        case Posted(post) =>
          posts := [post] + posts;
          content, media, inputs, error := [], [], [[]], NoError(flavor);
          isDisabled := !flavor.Js?;
          if flavor == Tsx(false) {
            error := Some(NavigateTypeError);
          }
          navigated := flavor != Tsx(false);
        case Threw(message) =>
          error := Some(if message == [] then SubmitFailed else message);
          isDisabled := !flavor.Js?;
          navigated := false;
      }
      assert State() == AfterSubmit(flavor, before, outcome);
    }
  }
}
