/**
 * The bearer-token step of the `authenticateToken` middleware of backend/server.js:
 * the Authorization header is matched against `/^Bearer\s+(.+)$/i` (a lax reading of
 * section 2.1 of RFC 6750) and the captured group is the token. A request without a
 * match is refused with 401 before any lookup.
 */
module ServerAuth {
  import opened Wrappers
  import opened JsText

  const Scheme := "bearer"

  /** ASCII lower-casing, the only case folding a non-Unicode `/i` pattern applies to
      the letters of "Bearer". */
  function LowerAscii(c: char): char
  {
    if 'A' <= c <= 'Z' then (c as int + 32) as char else c
  }

  /** `s` starts with "Bearer" in any mix of upper and lower case. */
  predicate HasScheme(s: string)
  {
    |s| >= |Scheme| && forall i :: 0 <= i < |Scheme| ==> LowerAscii(s[i]) == Scheme[i]
  }

  predicate NoLineTerminator(s: string)
  {
    forall i :: 0 <= i < |s| ==> !IsLineTerminator(s[i])
  }

  /** The regular expression can match `\s+` against `rest[..j]` and `(.+)$` against
      `rest[j..]`. */
  predicate CaptureAt(rest: string, j: int)
  {
    1 <= j < |rest| && AllSpace(rest[..j]) && NoLineTerminator(rest[j..])
  }

  /** `authHeader && authHeader.match(/^Bearer\s+(.+)$/i)?.[1]`: the greedy `\s+` takes
      the whole run of white space after the scheme unless that leaves nothing for
      `(.+)`, in which case it gives back one character. */
  function BearerToken(header: Option<string>): Option<string>
  {
    match header
    case None => None
    case Some(h) =>
      if !HasScheme(h) then None
      else
        var rest := h[|Scheme|..];
        var k := SpaceRun(rest);
        if k == 0 then None
        else if k < |rest| then
          (if NoLineTerminator(rest[k..]) then Some(rest[k..]) else None)
        else if k >= 2 && !IsLineTerminator(rest[k - 1]) then Some(rest[k - 1..])
        else None
  }

  /** The header matches the pattern at all. */
  ghost predicate Matches(h: string)
  {
    HasScheme(h) && exists j :: CaptureAt(h[|Scheme|..], j)
  }

  /** The length of the white-space run at the start of `rest`. */
  function SpaceRun(rest: string): (k: nat)
    ensures k <= |rest| && AllSpace(rest[..k])
    ensures k < |rest| ==> !IsSpace(rest[k])
  {
    var t := TrimStart(rest);
    TrimStartSpec(rest);
    assert t != [] ==> rest[|rest| - |t|] == t[0];
    |rest| - |t|
  }

  /** `\s+` cannot reach past the white-space run. */
  lemma CaptureWithinRun(rest: string, j: int)
    requires CaptureAt(rest, j)
    ensures j <= SpaceRun(rest)
  {
  }

  /** A line terminator at index `i` rules out every capture starting at or before it. */
  lemma NoCaptureOverTerminator(rest: string, i: int, j: int)
    requires 0 <= i < |rest| && IsLineTerminator(rest[i]) && 1 <= j <= i
    ensures !CaptureAt(rest, j)
  {
    assert rest[j..][i - j] == rest[i];
  }

  /** The extraction agrees with the regular expression: it yields a token exactly when
      the header matches, and the token is the capture of the longest `\s+`. */
  lemma BearerTokenIsGreedyMatch(h: string)
    ensures BearerToken(Some(h)).None? <==> !Matches(h)
    ensures BearerToken(Some(h)).Some? ==>
      var rest := h[|Scheme|..];
      exists j :: CaptureAt(rest, j) && BearerToken(Some(h)).value == rest[j..]
                && forall j' :: CaptureAt(rest, j') ==> j' <= j
  {
    if HasScheme(h) {
      var rest := h[|Scheme|..];
      var k := SpaceRun(rest);
      assert k == |rest| - |TrimStart(rest)|;
      forall j' | CaptureAt(rest, j') ensures j' <= k {
        CaptureWithinRun(rest, j');
      }
      if k == 0 {
      } else if k < |rest| {
        if NoLineTerminator(rest[k..]) {
          assert CaptureAt(rest, k);
        } else {
          var i :| 0 <= i < |rest[k..]| && IsLineTerminator(rest[k..][i]);
          forall j' | 1 <= j' <= k ensures !CaptureAt(rest, j') {
            NoCaptureOverTerminator(rest, k + i, j');
          }
        }
      } else if k >= 2 && !IsLineTerminator(rest[k - 1]) {
        assert CaptureAt(rest, k - 1);
        assert rest[k - 1..] == [rest[k - 1]];
      } else {
        forall j' | 1 <= j' < |rest| ensures !CaptureAt(rest, j') {
          NoCaptureOverTerminator(rest, k - 1, j');
        }
      }
    }
  }
}
