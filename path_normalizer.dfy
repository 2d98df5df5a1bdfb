/**
  `normalize_path` of the metrics middleware: maps a request path to the
  value of the `endpoint` label, replacing an identifier-looking last
  segment of an API path by `:id` so that the label's cardinality stays
  bounded by the shape of the route table.
 */
module PathNormalizer {
  import opened Decimal

  const ApiPrefix: string := "/api/"
  const IdPlaceholder: string := ":id"

  /** Number of bytes of the UTF-8 encoding of a character. */
  function Utf8Width(c: char): (w: nat)
    ensures 1 <= w <= 4
    ensures w == 1 <==> (c as int) < 0x80
  {
    if c as int < 0x80 then 1
    else if c as int < 0x800 then 2
    else if c as int < 0x1_0000 then 3
    else 4
  }

  /** `str::len`: the length of a string in UTF-8 bytes, not in characters. */
  function Utf8Len(s: string): (n: nat)
    ensures |s| <= n <= 4 * |s|
  {
    if s == [] then 0 else Utf8Width(s[0]) + Utf8Len(s[1..])
  }

  /** On ASCII text, bytes and characters agree. */
  lemma {:induction false} Utf8LenAscii(s: string)
    requires forall i :: 0 <= i < |s| ==> (s[i] as int) < 0x80
    ensures Utf8Len(s) == |s|
  {
    if s != [] {
      Utf8LenAscii(s[1..]);
    }
  }

  /**
    `s.split('/').collect()`: the pieces between the slashes, in order,
    empty ones included; there is always one more piece than there are slashes.
   */
  function Split(s: string): (parts: seq<string>)
    ensures 1 <= |parts|
    ensures forall i :: 0 <= i < |parts| ==> '/' !in parts[i]
  {
    if s == [] then [[]]
    else
      var rest := Split(s[1..]);
      if s[0] == '/' then [[]] + rest
      else [[s[0]] + rest[0]] + rest[1..]
  }

  /** `parts.join("/")`: one separator between each two pieces. */
  function Join(parts: seq<string>): (s: string)
    requires 1 <= |parts|
    ensures |s| >= |parts| - 1
  {
    if |parts| == 1 then parts[0] else parts[0] + "/" + Join(parts[1..])
  }

  /** The piece after the last slash, `parts.last()`. */
  function LastPiece(parts: seq<string>): string
    requires 1 <= |parts|
  {
    parts[|parts| - 1]
  }

  /**
    The identifier test of `normalize_path`: numeric as a `u64`, or longer
    than ten bytes. The empty piece is never an identifier; any piece of
    more than ten characters is one, whether or not it parses, so twenty
    digits that overflow `u64` are still an identifier.
   */
  predicate IsIdentifier(segment: string)
    ensures IsIdentifier(segment) ==> segment != []
    ensures |segment| > 10 ==> IsIdentifier(segment)
  {
    ParseU64(segment).Some? || Utf8Len(segment) > 10
  }

  /**
    `normalize_path(path)`: only an API path can be rewritten; every other
    path is its own label.
   */
  function Normalize(path: string): (endpoint: string)
    ensures endpoint != path ==> ApiPrefix <= path
  {
    if ApiPrefix <= path then
      var parts := Split(path);
      if |parts| > 3 && IsIdentifier(LastPiece(parts)) then
        Join(parts[..|parts| - 1]) + "/" + IdPlaceholder
      else
        path
    else
      path
  }

  /** A label value that normalization leaves as it is. */
  predicate IsNormalized(endpoint: string) {
    Normalize(endpoint) == endpoint
  }

  /** Position of the last slash of `s`. */
  function LastSlash(s: string): (i: nat)
    requires '/' in s
    ensures i < |s| && s[i] == '/'
    ensures forall j :: i < j < |s| ==> s[j] != '/'
  {
    if s[|s| - 1] == '/' then |s| - 1
    else
      assert '/' in s[..|s| - 1] by {
        var k :| 0 <= k < |s| && s[k] == '/';
        assert s[..|s| - 1][k] == '/';
      }
      LastSlash(s[..|s| - 1])
  }

  /**
    The rewriting rule stated on the text itself, without splitting: an API
    path with at least three slashes whose text after the last slash is an
    identifier becomes everything before that slash followed by `/:id`.
   */
  function NormalizeReference(path: string): (endpoint: string)
    ensures endpoint != path ==> ApiPrefix <= path
  {
    if ApiPrefix <= path && multiset(path)['/'] >= 3 && IsIdentifier(path[LastSlash(path) + 1..]) then
      path[..LastSlash(path)] + "/" + IdPlaceholder
    else
      path
  }

  // ---------------------------------------------------------------------
  // Splitting and joining

  lemma {:induction false} SplitNoSlash(x: string)
    requires '/' !in x
    ensures Split(x) == [x]
  {
    if x != [] {
      assert '/' !in x[1..];
      SplitNoSlash(x[1..]);
      assert [x[0]] + x[1..] == x;
    }
  }

  /** Splitting a piece, a slash and the rest gives that piece followed by the pieces of the rest. */
  lemma {:induction false} SplitCons(x: string, t: string)
    requires '/' !in x
    ensures Split(x + "/" + t) == [x] + Split(t)
  {
    var s := x + "/" + t;
    if x == [] {
      assert s == "/" + t && s[1..] == t;
    } else {
      assert s[0] == x[0] && s[1..] == x[1..] + "/" + t;
      assert '/' !in x[1..];
      SplitCons(x[1..], t);
      assert [x[0]] + x[1..] == x;
    }
  }

  /** Joining the pieces of a path gives the path back. */
  lemma {:induction false} JoinSplit(s: string)
    ensures Join(Split(s)) == s
  {
    if s != [] {
      JoinSplit(s[1..]);
      var rest := Split(s[1..]);
      if s[0] == '/' {
        assert Split(s) == [[]] + rest && (Split(s))[1..] == rest;
      } else {
        var parts := Split(s);
        assert parts[1..] == rest[1..];
        if |rest| > 1 {
          assert Join(rest) == rest[0] + "/" + Join(rest[1..]);
        }
      }
    }
  }

  /** Splitting the join of slash-free pieces gives the pieces back. */
  lemma {:induction false} SplitJoin(parts: seq<string>)
    requires 1 <= |parts|
    requires forall i :: 0 <= i < |parts| ==> '/' !in parts[i]
    ensures Split(Join(parts)) == parts
  {
    if |parts| == 1 {
      SplitNoSlash(parts[0]);
    } else {
      SplitJoin(parts[1..]);
      SplitCons(parts[0], Join(parts[1..]));
      assert [parts[0]] + parts[1..] == parts;
    }
  }

  lemma {:induction false} JoinSnoc(parts: seq<string>, x: string)
    requires 1 <= |parts|
    ensures Join(parts + [x]) == Join(parts) + "/" + x
  {
    if |parts| > 1 {
      assert (parts + [x])[1..] == parts[1..] + [x];
      JoinSnoc(parts[1..], x);
    }
  }

  /** There is one more piece than there are slashes. */
  lemma {:induction false} SplitCount(s: string)
    ensures |Split(s)| == multiset(s)['/'] + 1
  {
    if s != [] {
      SplitCount(s[1..]);
      assert s == [s[0]] + s[1..];
      assert multiset(s) == multiset([s[0]]) + multiset(s[1..]);
    }
  }

  /** A path starts with `/api/` exactly when its first two pieces are the empty one and `api`. */
  lemma ApiPrefixPieces(s: string)
    ensures ApiPrefix <= s <==> 3 <= |Split(s)| && Split(s)[0] == [] && Split(s)[1] == "api"
  {
    var parts := Split(s);
    if ApiPrefix <= s {
      var t := s[5..];
      assert s == [] + "/" + ("api" + "/" + t);
      SplitCons([], "api" + "/" + t);
      SplitCons("api", t);
    }
    if 3 <= |parts| && parts[0] == [] && parts[1] == "api" {
      JoinSplit(s);
      assert Join(parts) == [] + "/" + ("api" + "/" + Join(parts[2..]));
    }
  }

  /** In a text made of `a`, a slash and a slash-free `b`, the last slash is the one after `a`. */
  lemma LastSlashOf(s: string, a: string, b: string)
    requires s == a + "/" + b && '/' !in b
    ensures '/' in s
    ensures LastSlash(s) == |a|
    ensures s[..LastSlash(s)] == a && s[LastSlash(s) + 1..] == b
  {
    assert s[|a|] == '/';
    assert s[..|a|] == a && s[|a| + 1..] == b;
    forall j | |a| < j < |s|
      ensures s[j] != '/'
    {
      assert s[j] == b[j - |a| - 1];
    }
  }

  /** Any path is its pieces but the last, a slash, and its last piece. */
  lemma SplitLast(s: string)
    requires 2 <= |Split(s)|
    ensures var parts := Split(s);
      s == Join(parts[..|parts| - 1]) + "/" + LastPiece(parts)
  {
    var parts := Split(s);
    JoinSplit(s);
    assert parts == parts[..|parts| - 1] + [LastPiece(parts)];
    JoinSnoc(parts[..|parts| - 1], LastPiece(parts));
  }

  // ---------------------------------------------------------------------
  // Properties of the normalizer

  /** A path with at most two slashes (at most three pieces) is its own label. */
  lemma NormalizeFewSlashes(path: string)
    requires multiset(path)['/'] <= 2
    ensures Normalize(path) == path
  {
    SplitCount(path);
  }

  /** The last slash of a path with at least two pieces separates the last piece from the others. */
  lemma LastSlashSplits(path: string)
    requires 2 <= |Split(path)|
    ensures '/' in path
    ensures var parts := Split(path);
      && path[..LastSlash(path)] == Join(parts[..|parts| - 1])
      && path[LastSlash(path) + 1..] == LastPiece(parts)
  {
    var parts := Split(path);
    var front, last := Join(parts[..|parts| - 1]), LastPiece(parts);
    SplitLast(path);
    assert last == parts[|parts| - 1] && '/' !in last;
    LastSlashOf(path, front, last);
  }

  /** `normalize_path` is the rewriting rule stated on the text. */
  lemma NormalizeMatchesReference(path: string)
    ensures Normalize(path) == NormalizeReference(path)
  {
    var parts := Split(path);
    SplitCount(path);
    if ApiPrefix <= path && |parts| > 3 {
      LastSlashSplits(path);
    }
  }

  /** The pieces of a rewritten path: those of the input, with the last one replaced by `:id`. */
  lemma SplitRewritten(path: string)
    requires 2 <= |Split(path)|
    ensures var parts := Split(path);
      Split(Join(parts[..|parts| - 1]) + "/" + IdPlaceholder) == parts[..|parts| - 1] + [IdPlaceholder]
  {
    var parts := Split(path);
    var kept := parts[..|parts| - 1];
    var rewritten := kept + [IdPlaceholder];
    forall i | 0 <= i < |rewritten|
      ensures '/' !in rewritten[i]
    {
      if i < |kept| {
        assert rewritten[i] == parts[i];
      }
    }
    JoinSnoc(kept, IdPlaceholder);
    SplitJoin(rewritten);
  }

  /**
    Normalization keeps the number of pieces and every piece but the last;
    the last is kept or becomes `:id`, and the latter exactly when it was an
    identifier of an API path with more than three pieces.
   */
  lemma NormalizeKeepsPieces(path: string)
    ensures var parts, r := Split(path), Split(Normalize(path));
      && |r| == |parts|
      && r[..|r| - 1] == parts[..|parts| - 1]
      && (LastPiece(r) == IdPlaceholder || LastPiece(r) == LastPiece(parts))
      && (Normalize(path) != path <==>
            ApiPrefix <= path && |parts| > 3 && IsIdentifier(LastPiece(parts)))
  {
    var parts := Split(path);
    if ApiPrefix <= path && |parts| > 3 && IsIdentifier(LastPiece(parts)) {
      RewriteChangesPath(path);
      var r := Split(Normalize(path));
      assert r[..|r| - 1] == parts[..|parts| - 1];
    }
  }

  /** A rewritten path has the input's pieces with `:id` last, and differs from the input. */
  lemma RewriteChangesPath(path: string)
    requires ApiPrefix <= path && |Split(path)| > 3 && IsIdentifier(LastPiece(Split(path)))
    ensures var parts := Split(path);
      Split(Normalize(path)) == parts[..|parts| - 1] + [IdPlaceholder]
    ensures Normalize(path) != path
  {
    var parts := Split(path);
    SplitRewritten(path);
    PlaceholderIsNotIdentifier();
    assert LastPiece(Split(Normalize(path))) == IdPlaceholder;
  }

  /** The placeholder is not itself an identifier. */
  lemma PlaceholderIsNotIdentifier()
    ensures !IsIdentifier(IdPlaceholder)
  {
  }

  /**
    No label of an API path with more than three pieces ends in an
    identifier. Identifiers elsewhere are kept: see
    `NormalizeKeepsTopLevelApiPaths` and `NormalizeKeepsInnerIdentifier`.
   */
  lemma NormalizedLastPieceNotIdentifier(path: string)
    requires ApiPrefix <= path && |Split(path)| > 3
    ensures !IsIdentifier(LastPiece(Split(Normalize(path))))
  {
    var parts := Split(path);
    if IsIdentifier(LastPiece(parts)) {
      SplitRewritten(path);
      PlaceholderIsNotIdentifier();
    }
  }

  /** Normalizing a label again changes nothing. */
  lemma NormalizeIdempotent(path: string)
    ensures IsNormalized(Normalize(path))
  {
    var parts := Split(path);
    if ApiPrefix <= path && |parts| > 3 && IsIdentifier(LastPiece(parts)) {
      var q := Normalize(path);
      SplitRewritten(path);
      ApiPrefixPieces(path);
      ApiPrefixPieces(q);
      PlaceholderIsNotIdentifier();
    }
  }

  /** The label keeps the `/api/` prefix exactly when the path has it. */
  lemma NormalizeKeepsApiPrefix(path: string)
    ensures ApiPrefix <= Normalize(path) <==> ApiPrefix <= path
  {
    var parts := Split(path);
    if ApiPrefix <= path && |parts| > 3 && IsIdentifier(LastPiece(parts)) {
      SplitRewritten(path);
      ApiPrefixPieces(path);
      ApiPrefixPieces(Normalize(path));
    }
  }

  /** Normalization stated on the pieces of an API path with more than three of them. */
  lemma NormalizeJoin(parts: seq<string>)
    requires 3 < |parts| && parts[0] == [] && parts[1] == "api"
    requires forall i :: 0 <= i < |parts| ==> '/' !in parts[i]
    ensures Normalize(Join(parts)) ==
      if IsIdentifier(LastPiece(parts)) then Join(parts[..|parts| - 1]) + "/" + IdPlaceholder else Join(parts)
  {
    SplitJoin(parts);
    ApiPrefixPieces(Join(parts));
  }

  // ---------------------------------------------------------------------
  // Boundary cases

  /** Numbers are identifiers. */
  lemma NumericSegments()
    ensures IsIdentifier("12345") && IsIdentifier("0")
  {
    assert DecimalString(12345) == "12345";
    ParseDecimalString(12345);
    ParseDecimalString(0);
  }

  /** A segment longer than ten bytes is an identifier. */
  lemma LongSegment()
    ensures IsIdentifier("abcdefghijk")
  {
  }

  /** A short word and the empty segment after a trailing slash are not identifiers. */
  lemma ShortSegments()
    ensures !IsIdentifier("bob") && !IsIdentifier("")
  {
  }

  lemma NormalizeKeepsShortSegment()
    ensures Normalize("/api/v1/users/bob") == "/api/v1/users/bob"
  {
    var parts := ["", "api", "v1", "users", "bob"];
    assert Join(parts) == "/api/v1/users/bob";
    Utf8LenAscii("bob");
    NormalizeJoin(parts);
  }

  lemma NormalizeKeepsTrailingSlash()
    ensures Normalize("/api/v1/users/") == "/api/v1/users/"
  {
    var parts := ["", "api", "v1", "users", ""];
    assert Join(parts) == "/api/v1/users/";
    NormalizeJoin(parts);
  }

  lemma NormalizeKeepsShortApiPaths()
    ensures Normalize("/api/") == "/api/"
    ensures Normalize("/api/v1") == "/api/v1"
  {
    var root, v1 := ["", "api", ""], ["", "api", "v1"];
    assert Join(root) == "/api/" && Join(v1) == "/api/v1";
    SplitJoin(root);
    SplitJoin(v1);
  }

  /** `/api/12345` has only three pieces, so its identifier reaches the label. */
  lemma NormalizeKeepsTopLevelApiPaths(x: string)
    requires '/' !in x
    ensures Normalize(ApiPrefix + x) == ApiPrefix + x
  {
    var path := ApiPrefix + x;
    assert path == [] + "/" + ("api" + "/" + x);
    SplitCons([], "api" + "/" + x);
    SplitCons("api", x);
    SplitNoSlash(x);
  }

  /**
    An identifier in a middle piece is kept: only the last piece is ever tested.
    The literal is passed as a parameter so that the verifier does not unfold
    `Split` on the whole path text.
   */
  lemma NormalizeKeepsInnerIdentifier(id: string)
    requires id == "12345"
    ensures IsIdentifier(id)
    ensures Normalize("/api/users/" + id + "/orders") == "/api/users/" + id + "/orders"
  {
    NumericSegments();
    var kept := ["", "api", "users"];
    var parts := kept + [id] + ["orders"];
    assert Join(kept) == "/api/users";
    JoinSnoc(kept, id);
    JoinSnoc(kept + [id], "orders");
    assert Join(parts) == "/api/users/" + id + "/orders";
    Utf8LenAscii("orders");
    NormalizeJoin(parts);
  }

  /** An identifier appended to an API path of at least three pieces is replaced by `:id`. */
  lemma NormalizeRewritesIdentifier(kept: seq<string>, x: string)
    requires 3 <= |kept| && kept[0] == [] && kept[1] == "api"
    requires forall i :: 0 <= i < |kept| ==> '/' !in kept[i]
    requires '/' !in x && IsIdentifier(x)
    ensures Normalize(Join(kept) + "/" + x) == Join(kept) + "/" + IdPlaceholder
  {
    var parts := kept + [x];
    JoinSnoc(kept, x);
    assert parts[..|parts| - 1] == kept && LastPiece(parts) == x;
    NormalizeJoin(parts);
  }

  /**
    The numeric identifier `12345` is replaced. The path is passed as a
    parameter so that the verifier does not unfold `Split` on the literal.
   */
  lemma NormalizeRewritesNumericId(path: string)
    requires path == "/api/v1/users/12345"
    ensures Normalize(path) == "/api/v1/users/:id"
  {
    var kept := ["", "api", "v1", "users"];
    assert Join(kept) == "/api/v1/users";
    assert path == Join(kept) + "/" + "12345";
    NumericSegments();
    NormalizeRewritesIdentifier(kept, "12345");
  }

  /**
    The eleven-byte identifier `abcdefghijk` is replaced. The segment is passed
    as a parameter so that the verifier does not unfold `Split` on the literal.
   */
  lemma NormalizeRewritesLongId(segment: string)
    requires segment == "abcdefghijk"
    ensures Normalize("/api/v1/users/" + segment) == "/api/v1/users/:id"
  {
    var kept := ["", "api", "v1", "users"];
    assert Join(kept) == "/api/v1/users";
    assert "/api/v1/users/" + segment == Join(kept) + "/" + segment;
    NormalizeRewritesIdentifier(kept, segment);
  }
}
