/**
 * The infinite-scroll paging machine shared by SuperScrollList, FeedScreen,
 * FollowingScreen and GlobalChatScreen: state `data`, `page`, `isLoading`, `hasMore`,
 * a loader called with the current page, and a per-screen error handler.
 */
module ScrollList {
  import opened Wrappers

  /** Which screen: they differ only in the loader, the reply field they read and the
      error handler. `storageImported` is false for GlobalChatScreen as written, whose
      error handler refers to AsyncStorage without importing it. */
  datatype Variant = SuperScroll | Feed | Following | GlobalChat(storageImported: bool)

  datatype ScrollState<T> = ScrollState(data: seq<T>, page: int, isLoading: bool, hasMore: bool)

  /** A JSON list reply: `res.posts` and `res.comments`, either possibly absent. */
  datatype Reply<T> = Reply(posts: Option<seq<T>>, comments: Option<seq<T>>)

  /** What the awaited loader call produced: a reply, or a thrown error's message. */
  datatype Outcome<T> = Loaded(reply: Reply<T>) | Failed(message: string)

  /** What the error handler does besides the state: go to Login (by `replace` or by
      `navigate`) and whether the stored token was removed. */
  datatype Effect = NoEffect | ToLogin(replace: bool, tokenRemoved: bool)

  /** The body of the server's 401 answer to a request without a bearer token, which
      the Feed, Following and GlobalChat handlers compare error messages against. */
  const AuthErrorBody := "{\"error\":\"" + "Access denied, no valid Bearer token provided" + "\"}"

  function Initial<T>(): (s: ScrollState<T>)
    ensures s.data == [] && s.page == 1 && !s.isLoading && s.hasMore
  {
    ScrollState([], 1, false, true)
  }

  /** The guard of `fetchData` and `handleLoadMore`. */
  predicate CanFetch<T>(s: ScrollState<T>)
  {
    !s.isLoading && s.hasMore
  }

  /** The items a reply carries: `res.posts || []`, or `res.comments || []` for the
      global chat. */
  function Items<T>(v: Variant, reply: Reply<T>): seq<T>
  {
    if v.GlobalChat? then reply.comments.GetOr([]) else reply.posts.GetOr([])
  }

  /** The first half of `fetchData`: nothing while loading or when no more pages;
      otherwise mark loading (and the loader is called with `page`). */
  function Begin<T>(s: ScrollState<T>): (r: ScrollState<T>)
    ensures CanFetch(s) ==> r == s.(isLoading := true)
    ensures !CanFetch(s) ==> r == s
  {
    if CanFetch(s) then s.(isLoading := true) else s
  }

  /** Whether the error handler itself throws before clearing `isLoading`. */
  predicate HandlerThrows(v: Variant, message: string)
  {
    v == GlobalChat(false) && message == AuthErrorBody
  }

  /** The second half of `fetchData`, once the loader has answered. */
  function Finish<T>(v: Variant, s: ScrollState<T>, outcome: Outcome<T>): ScrollState<T>
  {
    match outcome
    case Loaded(reply) =>
      var items := Items(v, reply);
      ScrollState(if s.page == 1 then items else s.data + items, s.page, false, |items| > 0)
    case Failed(message) =>
      if HandlerThrows(v, message) then s else s.(isLoading := false)
  }

  /** The effect of the error handler on navigation and on the stored token. */
  function FailureEffect(v: Variant, message: string): Effect
  {
    match v
    case SuperScroll => ToLogin(true, true)
    case GlobalChat(imported) => if message == AuthErrorBody then ToLogin(false, imported) else NoEffect
    case _ => if message == AuthErrorBody then ToLogin(false, true) else NoEffect
  }

  /** `handleLoadMore`'s state update: the page advances only when a fetch may start. */
  function LoadMore<T>(s: ScrollState<T>): (r: ScrollState<T>)
    ensures CanFetch(s) ==> r == s.(page := s.page + 1)
    ensures !CanFetch(s) ==> r == s
  {
    if CanFetch(s) then s.(page := s.page + 1) else s
  }

  /** A loaded page replaces the data on page 1 and is appended after the old data
      otherwise; `hasMore` records whether the page had items. */
  lemma LoadedPageUpdatesData<T>(v: Variant, s: ScrollState<T>, reply: Reply<T>)
    ensures var r := Finish(v, s, Loaded(reply));
      && (s.page == 1 ==> r.data == Items(v, reply))
      && (s.page != 1 ==> r.data[..|s.data|] == s.data && r.data[|s.data|..] == Items(v, reply))
      && (r.hasMore <==> Items(v, reply) != [])
      && r.page == s.page && !r.isLoading
  {
  }

  /** A reply without the field the screen reads counts as an empty page. */
  lemma MissingFieldEndsPaging<T>(v: Variant, s: ScrollState<T>, reply: Reply<T>)
    requires if v.GlobalChat? then reply.comments.None? else reply.posts.None?
    ensures !Finish(v, s, Loaded(reply)).hasMore
    ensures !CanFetch(Finish(v, s, Loaded(reply)))
  {
  }

  /** A failed load keeps data, page and hasMore and, unless the handler throws, clears
      isLoading. */
  lemma FailureKeepsData<T>(v: Variant, s: ScrollState<T>, message: string)
    ensures var r := Finish(v, s, Failed(message));
      r.data == s.data && r.page == s.page && r.hasMore == s.hasMore
      && (r.isLoading <==> s.isLoading && HandlerThrows(v, message))
  {
  }

  /** Every handler but GlobalChatScreen's as written clears isLoading on any failure,
      so the list can load again. */
  lemma FailureReenablesLoading<T>(v: Variant, s: ScrollState<T>, message: string)
    requires v != GlobalChat(false) && s.hasMore
    ensures CanFetch(Finish(v, Begin(s), Failed(message)))
  {
  }

  /** SuperScrollList sends every failure to Login and drops the token; the other screens
      leave for Login exactly on the server's missing-token answer. */
  lemma FailureRedirects(v: Variant, message: string)
    ensures v == SuperScroll ==> FailureEffect(v, message) == ToLogin(true, true)
    ensures v != SuperScroll ==> (FailureEffect(v, message) != NoEffect <==> message == AuthErrorBody)
    ensures v != SuperScroll && message == AuthErrorBody ==>
      FailureEffect(v, message) == ToLogin(false, v != GlobalChat(false))
  {
  }

  /** GlobalChatScreen as written: after the server's missing-token answer the list is
      stuck in the loading state, and no later fetch or load-more changes it. */
  lemma GlobalChatStuckAfterAuthError<T>(s: ScrollState<T>)
    requires CanFetch(s)
    ensures var r := Finish(GlobalChat(false), Begin(s), Failed(AuthErrorBody));
      r.isLoading && Begin(r) == r && LoadMore(r) == r
    ensures FailureEffect(GlobalChat(false), AuthErrorBody) == ToLogin(false, false)
  {
  }

  /** The page number never decreases, and grows by exactly one per accepted
      load-more. */
  lemma PageMonotone<T>(v: Variant, s: ScrollState<T>, outcome: Outcome<T>)
    ensures Begin(s).page == s.page && Finish(v, s, outcome).page == s.page
    ensures LoadMore(s).page == s.page + (if CanFetch(s) then 1 else 0)
  {
  }

  /** The scroll list component, whose state the handlers update in place. */
  class ScrollList<T> {
    const variant: Variant
    var data: seq<T>
    var page: int
    var isLoading: bool
    var hasMore: bool

    function State(): ScrollState<T>
      reads this
    {
      ScrollState(data, page, isLoading, hasMore)
    }

    constructor(v: Variant)
      ensures variant == v && State() == Initial()
    {
      variant := v;
      data, page, isLoading, hasMore := [], 1, false, true;
    }

    /** `fetchData` up to the awaited loader call: returns the page requested, if any. */
    method StartFetch() returns (requested: Option<int>)
      modifies this
      ensures State() == Begin(old(State()))
      ensures requested == if CanFetch(old(State())) then Some(old(page)) else None
    {
      if isLoading || !hasMore {
        return None;
      }
      isLoading := true;
      requested := Some(page);
    }

    /** `fetchData` after the loader answered (or threw). */
    method CompleteFetch(outcome: Outcome<T>) returns (effect: Effect)
      modifies this
      ensures State() == Finish(variant, old(State()), outcome)
      ensures effect == if outcome.Failed? then FailureEffect(variant, outcome.message) else NoEffect
    {
      match outcome {
        case Loaded(reply) =>
          var items := Items(variant, reply);
          data := if page == 1 then items else data + items;
          isLoading := false;
          hasMore := |items| > 0;
          effect := NoEffect;
        case Failed(message) =>
          effect := FailureEffect(variant, message);
          if !HandlerThrows(variant, message) {
            isLoading := false;
          }
      }
    }

    /** `handleLoadMore`: advance the page and start a fetch, when one may start. */
    method HandleLoadMore() returns (requested: Option<int>)
      modifies this
      ensures State() == Begin(LoadMore(old(State())))
      ensures requested == if CanFetch(old(State())) then Some(old(page) + 1) else None
    {
      if !isLoading && hasMore {
        page := page + 1;
        requested := StartFetch();
      } else {
        requested := None;
      }
    }
  }
}
