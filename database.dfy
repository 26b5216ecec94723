/**
 * The client's request helpers (frontend/database.js): the headers `authHeaders` builds,
 * the query of the paginated list requests, and the stored token that login sets and
 * logout removes. The requests themselves are left out.
 */
module Database {
  import opened Wrappers
  import opened JsText

  const BaseUrl := "http://localhost:3000"
  const JsonType := "application/json"
  const BearerPrefix := "Bearer "
  /** The page size every list request asks for. */
  const ClientPageSize := 10

  /** The header object: `Authorization` when present, and `Content-Type`. */
  datatype Headers = Headers(authorization: Option<string>, contentType: string)

  /** A stored token the client is willing to send: present, non-empty, and not the
      text "undefined" or "null" left behind by storing a missing value. */
  predicate UsableToken(token: Option<string>)
  {
    token.Some? && token.value != [] && token.value != "undefined" && token.value != "null"
  }

  /** `authHeaders()` for the token read from storage. */
  function AuthHeaders(token: Option<string>): Headers
  {
    if !UsableToken(token) then Headers(None, JsonType)
    else Headers(Some(BearerPrefix + token.value), JsonType)
  }

  /** The headers always ask for JSON; they carry a credential exactly for a usable
      token, and that credential is the token behind the "Bearer " scheme. */
  lemma AuthHeadersShape(token: Option<string>)
    ensures AuthHeaders(token).contentType == JsonType
    ensures AuthHeaders(token).authorization.Some? <==> UsableToken(token)
    ensures AuthHeaders(token).authorization.Some? ==>
      StartsWith(AuthHeaders(token).authorization.value, BearerPrefix)
      && AuthHeaders(token).authorization.value[|BearerPrefix|..] == token.value
  {
  }

  /** The list endpoints the paged screens call. */
  const PostsPath := "/posts"
  const FollowingPostsPath := "/following-posts"
  const CommentsPath := "/comments"

  /** `page=${page}&pageSize=10`. */
  function ListQuery(page: nat): string
  {
    "page=" + Decimal(page) + "&pageSize=" + Decimal(ClientPageSize)
  }

  /** The URL of `getAllPosts`, `getFollowingPosts` and `getAllComments`. */
  function ListUrl(path: string, page: nat): string
  {
    BaseUrl + path + "?" + ListQuery(page)
  }

  /** A query string read as name/value pairs: split on '&', then each part at its
      first '='. */
  function QueryPairs(query: string): seq<(string, string)>
  {
    PairsOf(Split(query, '&'))
  }

  function PairsOf(parts: seq<string>): (r: seq<(string, string)>)
    ensures |r| == |parts|
  {
    if parts == [] then []
    else
      var kv := Split(parts[0], '=');
      [(kv[0], Join(kv[1..], '='))] + PairsOf(parts[1..])
  }

  lemma DecimalHasNoSeparators(n: nat)
    ensures '&' !in Decimal(n) && '=' !in Decimal(n)
  {
  }

  /** Two separator-free parts joined by the separator split back into the two. */
  lemma SplitTwo(a: string, b: string, sep: char)
    requires sep !in a && sep !in b
    ensures Split(a + [sep] + b, sep) == [a, b]
  {
    SplitConcat(a, b, sep);
    SplitNoSep(a, sep);
    SplitNoSep(b, sep);
  }

  /** The query of a list request reads back as exactly the page asked for and a page
      size of 10. */
  lemma ListQueryReadsBack(page: nat)
    ensures QueryPairs(ListQuery(page)) == [("page", Decimal(page)), ("pageSize", Decimal(ClientPageSize))]
  {
    var p, z := Decimal(page), Decimal(ClientPageSize);
    DecimalHasNoSeparators(page);
    DecimalHasNoSeparators(ClientPageSize);
    var first := "page" + ['='] + p;
    var second := "pageSize" + ['='] + z;
    assert ListQuery(page) == first + ['&'] + second;
    SplitTwo(first, second, '&');
    SplitTwo("page", p, '=');
    SplitTwo("pageSize", z, '=');
    assert PairsOf([second]) == [("pageSize", Join([z], '='))];
  }

  /** The AsyncStorage slot holding the token. */
  class TokenStorage {
    var token: Option<string>

    constructor(stored: Option<string>)
      ensures token == stored
    {
      token := stored;
    }

    /** `authHeaders()`: reads the slot, changes nothing. */
    method Headers() returns (h: Headers)
      ensures h == AuthHeaders(token)
      ensures h.authorization.Some? <==> UsableToken(token)
    {
      h := AuthHeaders(token);
    }

    /** `login` and `register`: a non-ok reply throws before anything is stored;
        otherwise the reply's token is stored. */
    method SignIn(reply: Option<string>)
      modifies this
      ensures token == if reply.Some? then reply else old(token)
    {
      if reply.Some? {
        token := reply;
      }
    }

    /** `logout`: the token is removed first, so it is gone whether or not the server
        call that follows succeeds. Returns whether `logout` returned normally. */
    method Logout(serverOk: bool) returns (ok: bool)
      modifies this
      ensures token == None && ok == serverOk
      ensures AuthHeaders(token).authorization.None?
    {
      token := None;
      ok := serverOk;
    }
  }
}
