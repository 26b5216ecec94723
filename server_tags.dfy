/**
 * Tag strings of backend/server.js. A post stores its tags as one comma-separated
 * string: create-post normalises the client's list, the read endpoints split it back,
 * and `GET /following-posts` decides in SQL whether a post carries a followed tag.
 */
module ServerTags {
  import opened Wrappers
  import opened JsText

  const Comma := ','

  /** `parts.map(tag => tag.trim())`. */
  function TrimAll(parts: seq<string>): (r: seq<string>)
    ensures |r| == |parts|
    ensures forall i :: 0 <= i < |r| ==> r[i] == Trim(parts[i])
  {
    if parts == [] then [] else [Trim(parts[0])] + TrimAll(parts[1..])
  }

  /** `tags.split(',').map(tag => tag.trim()).join(',')`: each comma-separated piece
      loses its surrounding white space. */
  function NormalizeTags(tags: string): string
  {
    Join(TrimAll(Split(tags, Comma)), Comma)
  }

  /** The `tags` column written by create-post: `tags ? NormalizeTags(tags) : null`,
      where a missing or empty `tags` is falsy. */
  function StoredTags(tags: Option<string>): (r: Option<string>)
    ensures r.None? <==> tags.None? || tags.value == []
  {
    if tags.Some? && tags.value != [] then Some(NormalizeTags(tags.value)) else None
  }

  /** `s ? s.split(',') : []`: the tag or image list the server answers with for a
      stored column (NULL and the empty string give the empty list). */
  function ColumnList(column: Option<string>): seq<string>
  {
    if column.Some? && column.value != [] then Split(column.value, Comma) else []
  }

  lemma TrimAllHasNoComma(parts: seq<string>)
    requires forall i :: 0 <= i < |parts| ==> Comma !in parts[i]
    ensures forall i :: 0 <= i < |TrimAll(parts)| ==> Comma !in TrimAll(parts)[i]
  {
    forall i | 0 <= i < |parts| ensures Comma !in TrimAll(parts)[i] {
      TrimKeepsOut(parts[i], Comma);
    }
  }

  /** The pieces of a normalised string are the trimmed pieces of the input: the
      response's tag list is the client's list with white space removed. */
  lemma NormalizedPieces(tags: string)
    ensures Split(NormalizeTags(tags), Comma) == TrimAll(Split(tags, Comma))
  {
    TrimAllHasNoComma(Split(tags, Comma));
    SplitJoin(TrimAll(Split(tags, Comma)), Comma);
  }

  /** Normalising twice equals normalising once. */
  lemma NormalizeIdempotent(tags: string)
    ensures NormalizeTags(NormalizeTags(tags)) == NormalizeTags(tags)
  {
    var pieces := TrimAll(Split(tags, Comma));
    NormalizedPieces(tags);
    TrimAllIdempotent(Split(tags, Comma));
    calc {
      NormalizeTags(NormalizeTags(tags));
      Join(TrimAll(Split(NormalizeTags(tags), Comma)), Comma);
      Join(TrimAll(pieces), Comma);
      Join(pieces, Comma);
    }
  }

  lemma TrimAllIdempotent(parts: seq<string>)
    ensures TrimAll(TrimAll(parts)) == TrimAll(parts)
  {
    var pieces := TrimAll(parts);
    forall i | 0 <= i < |pieces| ensures TrimAll(pieces)[i] == pieces[i] {
      TrimIdempotent(parts[i]);
    }
  }

  /** The SQL condition of `GET /following-posts` for one followed tag `name`:
      `p.tags = t.name OR p.tags LIKE CONCAT(t.name, ',%') OR p.tags LIKE CONCAT('%,', t.name)
       OR p.tags LIKE CONCAT('%,', t.name, ',%') OR (p.tags IS NULL AND t.name = '')`,
      with LIKE read as plain prefix, suffix and infix tests. */
  predicate TagMatches(postTags: Option<string>, name: string)
  {
    match postTags
    case None => name == []
    case Some(s) =>
      || s == name
      || StartsWith(s, name + [Comma])
      || EndsWith(s, [Comma] + name)
      || Contains(s, [Comma] + name + [Comma])
  }

  lemma {:induction false} JoinAppend(a: seq<string>, b: seq<string>, sep: char)
    requires |a| >= 1 && |b| >= 1
    ensures Join(a + b, sep) == Join(a, sep) + [sep] + Join(b, sep)
  {
    if |a| > 1 {
      JoinAppend(a[1..], b, sep);
      assert (a + b)[1..] == a[1..] + b;
    } else {
      assert (a + b)[1..] == b;
    }
  }

  /** A piece of a split string sits in it as the whole string, as a prefix followed by
      a comma, as a suffix after a comma, or between two commas. */
  lemma PieceInContext(s: string, i: int)
    requires 0 <= i < |Split(s, Comma)|
    ensures TagMatches(Some(s), Split(s, Comma)[i])
  {
    var parts := Split(s, Comma);
    var name := parts[i];
    var n := |parts|;
    JoinSplit(s, Comma);
    if n == 1 {
    } else if i == 0 {
      JoinAppend([name], parts[1..], Comma);
      assert [name] + parts[1..] == parts;
      assert Join([name], Comma) == name;
      LeadingPiece(name, Join(parts[1..], Comma));
    } else if i == n - 1 {
      JoinAppend(parts[..n - 1], [name], Comma);
      assert parts[..n - 1] + [name] == parts;
      assert Join([name], Comma) == name;
      TrailingPiece(Join(parts[..n - 1], Comma), name);
    } else {
      JoinAppend(parts[..i], parts[i..], Comma);
      JoinAppend([name], parts[i + 1..], Comma);
      assert parts[..i] + parts[i..] == parts;
      assert [name] + parts[i + 1..] == parts[i..];
      var pre, post := Join(parts[..i], Comma), Join(parts[i + 1..], Comma);
      assert Join([name], Comma) == name;
      assert s == pre + [Comma] + (name + [Comma] + post);
      assert s == pre + [Comma] + name + [Comma] + post;
      InnerPiece(pre, name, post);
    }
  }

  lemma LeadingPiece(name: string, post: string)
    ensures StartsWith(name + [Comma] + post, name + [Comma])
  {
    assert (name + [Comma] + post)[..|name| + 1] == name + [Comma];
  }

  lemma TrailingPiece(pre: string, name: string)
    ensures EndsWith(pre + [Comma] + name, [Comma] + name)
  {
    var s := pre + [Comma] + name;
    assert s[|s| - |name| - 1..] == [Comma] + name;
  }

  lemma InnerPiece(pre: string, name: string, post: string)
    ensures Contains(pre + [Comma] + name + [Comma] + post, [Comma] + name + [Comma])
  {
    var s := pre + [Comma] + name + [Comma] + post;
    var part := [Comma] + name + [Comma];
    assert s == pre + part + post;
    assert s[|pre|..|pre| + |part|] == part;
    assert OccursAt(s, part, |pre|);
  }

  /** A string matching the condition for a comma-free name has the name among its
      pieces. */
  lemma MatchIsPiece(s: string, name: string)
    requires Comma !in name && TagMatches(Some(s), name)
    ensures name in Split(s, Comma)
  {
    SplitNoSep(name, Comma);
    if s == name {
    } else if StartsWith(s, name + [Comma]) {
      var rest := s[|name| + 1..];
      assert s == name + [Comma] + rest;
      SplitConcat(name, rest, Comma);
      assert Split(s, Comma)[0] == name;
    } else if EndsWith(s, [Comma] + name) {
      var pre := s[..|s| - |name| - 1];
      assert s == pre + [Comma] + name;
      SplitConcat(pre, name, Comma);
      assert Split(s, Comma)[|Split(s, Comma)| - 1] == name;
    } else {
      var k :| OccursAt(s, [Comma] + name + [Comma], k);
      InfixIsPiece(s, name, k);
    }
  }

  lemma InfixIsPiece(s: string, name: string, k: int)
    requires Comma !in name && OccursAt(s, [Comma] + name + [Comma], k)
    ensures name in Split(s, Comma)
  {
    var pre, post := s[..k], s[k + |name| + 2..];
    assert s == pre + [Comma] + (name + [Comma] + post);
    SplitConcat(pre, name + [Comma] + post, Comma);
    SplitConcat(name, post, Comma);
    SplitNoSep(name, Comma);
    assert Split(s, Comma)[|Split(pre, Comma)|] == name;
  }

  /** For a tag name without a comma, the SQL condition holds exactly when the name is
      one of the post's comma-separated tags; a post without tags matches only the
      empty name. */
  lemma TagMatchesIffMember(postTags: Option<string>, name: string)
    requires Comma !in name
    ensures TagMatches(postTags, name) <==>
      (if postTags.None? then name == [] else name in Split(postTags.value, Comma))
  {
    if postTags.Some? {
      var s := postTags.value;
      if name in Split(s, Comma) {
        var i :| 0 <= i < |Split(s, Comma)| && Split(s, Comma)[i] == name;
        PieceInContext(s, i);
      }
      if TagMatches(postTags, name) {
        MatchIsPiece(s, name);
      }
    }
  }
}
