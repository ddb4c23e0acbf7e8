/** How the browser client reads its page from `window.location.pathname`:
    the path without a trailing slash, the user id after its last `/`, and
    whether it is a receiver page or a caller page. */
module Url {

  /** `pathname.replace(/\/$/, "")`: drop one `/` at the very end, if there is one. */
  function CurrentPath(pathname: string): (path: string)
    ensures pathname == path || pathname == path + "/"
    ensures pathname == path + "/" <==> |pathname| > 0 && pathname[|pathname| - 1] == '/'
  {
    if |pathname| > 0 && pathname[|pathname| - 1] == '/' then pathname[..|pathname| - 1] else pathname
  }

  /** Trimming undoes adding one `/`, and leaves a path that does not end in
      `/` as it is: the links `/login` hands out read the same with or without
      a trailing slash. */
  lemma TrimUndoesTrailingSlash(path: string)
    ensures CurrentPath(path + "/") == path
    ensures (path == [] || path[|path| - 1] != '/') ==> CurrentPath(path) == path
  {
    assert (path + "/")[..|path|] == path;
  }

  /** `s.split(sep)` for a one-character separator: the pieces between
      separators, empty ones included, so there is always at least one. */
  function Split(s: string, sep: char): (parts: seq<string>)
    ensures |parts| >= 1
    ensures forall i | 0 <= i < |parts| :: sep !in parts[i]
    decreases |s|
  {
    if s == [] then [[]]
    else
      var rest := Split(s[1..], sep);
      if s[0] == sep then [[]] + rest
      else [[s[0]] + rest[0]] + rest[1..]
  }

  /** `parts.join(sep)`. */
  function Join(parts: seq<string>, sep: char): string
    decreases |parts|
  {
    if |parts| <= 1 then (if parts == [] then [] else parts[0])
    else parts[0] + [sep] + Join(parts[1..], sep)
  }

  /** Splitting loses nothing: joining the pieces back gives the original string. */
  lemma {:induction false} JoinSplit(s: string, sep: char)
    ensures Join(Split(s, sep), sep) == s
    decreases |s|
  {
    if s != [] {
      var rest := Split(s[1..], sep);
      JoinSplit(s[1..], sep);
      if s[0] == sep {
        assert Split(s, sep)[1..] == rest;
      } else {
        var parts := Split(s, sep);
        assert parts[1..] == rest[1..];
        if |rest| > 1 {
          assert Join(rest, sep) == rest[0] + [sep] + Join(rest[1..], sep);
        }
      }
    }
  }

  /** Joining peels off the last piece after the last separator. */
  lemma {:induction false} JoinLast(parts: seq<string>, sep: char)
    requires |parts| > 1
    ensures Join(parts, sep) == Join(parts[..|parts| - 1], sep) + [sep] + parts[|parts| - 1]
    decreases |parts|
  {
    if |parts| > 2 {
      JoinLast(parts[1..], sep);
      assert parts[..|parts| - 1][1..] == parts[1..][..|parts| - 2];
    }
  }

  /** The last piece is what follows the last separator: a suffix of `s` that is
      all of `s` or is preceded by a separator. */
  lemma LastPieceIsSuffix(s: string, sep: char)
    ensures var parts := Split(s, sep); var last := parts[|parts| - 1];
      |last| <= |s| && s[|s| - |last|..] == last && (|last| < |s| ==> s[|s| - |last| - 1] == sep)
  {
    var parts := Split(s, sep);
    JoinSplit(s, sep);
    if |parts| > 1 {
      JoinLast(parts, sep);
      var front := Join(parts[..|parts| - 1], sep) + [sep];
      assert s == front + parts[|parts| - 1];
      assert s[|front| - 1] == sep;
    }
  }

  /** The text after the last `/` of `s` is the only suffix of `s` free of `/`
      that is all of `s` or starts right after a `/`. */
  lemma TextAfterLastSlashIsUnique(s: string, a: string, b: string)
    requires '/' !in a && |a| <= |s| && s[|s| - |a|..] == a && (|a| < |s| ==> s[|s| - |a| - 1] == '/')
    requires '/' !in b && |b| <= |s| && s[|s| - |b|..] == b && (|b| < |s| ==> s[|s| - |b| - 1] == '/')
    ensures a == b
  {
  }

  /** `parts[parts.length - 1]` of `currentPath.split("/")`: the text after the
      last `/` of the current path, never containing a `/` itself. */
  function UserIdFromUrl(pathname: string): (id: string)
    ensures '/' !in id
    ensures var path := CurrentPath(pathname);
      |id| <= |path| && path[|path| - |id|..] == id && (|id| < |path| ==> path[|path| - |id| - 1] == '/')
  {
    var parts := Split(CurrentPath(pathname), '/');
    LastPieceIsSuffix(CurrentPath(pathname), '/');
    parts[|parts| - 1]
  }

  /** `s.startsWith(prefix)`. */
  predicate StartsWith(s: string, prefix: string)
    ensures StartsWith(s, prefix) <==> |prefix| <= |s| && forall i | 0 <= i < |prefix| :: s[i] == prefix[i]
  {
    |prefix| <= |s| && s[..|prefix|] == prefix
  }

  /** `currentPath.startsWith("/receiver/")`. Because the trim takes off one
      trailing `/`, this is a path starting with `/receiver/` other than
      `/receiver/` itself. */
  predicate IsReceiverPage(pathname: string)
    ensures IsReceiverPage(pathname) <==> StartsWith(pathname, "/receiver/") && pathname != "/receiver/"
  {
    StartsWith(CurrentPath(pathname), "/receiver/")
  }

  /** `currentPath.startsWith("/call/")`: a path starting with `/call/` other
      than `/call/` itself. */
  predicate IsCallerPage(pathname: string)
    ensures IsCallerPage(pathname) <==> StartsWith(pathname, "/call/") && pathname != "/call/"
  {
    StartsWith(CurrentPath(pathname), "/call/")
  }

  /** No page is both a receiver page and a caller page. */
  lemma PageKindsAreExclusive(pathname: string)
    ensures !(IsReceiverPage(pathname) && IsCallerPage(pathname))
  {
    var path := CurrentPath(pathname);
    if IsReceiverPage(pathname) {
      assert path[1] == path[..10][1] == 'r';
    }
    if IsCallerPage(pathname) {
      assert path[1] == path[..6][1] == 'c';
    }
  }

  /** The links `/login` hands out, `/receiver/<id>` and `/call/<id>`, with or
      without a trailing `/`, are read back as the right page kind and the same
      id, provided the id is non-empty and contains no `/`. */
  lemma LinksRoundTrip(id: string, trailingSlash: bool)
    requires id != [] && '/' !in id
    ensures var receiver := "/receiver/" + id + (if trailingSlash then "/" else "");
      IsReceiverPage(receiver) && !IsCallerPage(receiver) && UserIdFromUrl(receiver) == id
    ensures var caller := "/call/" + id + (if trailingSlash then "/" else "");
      IsCallerPage(caller) && !IsReceiverPage(caller) && UserIdFromUrl(caller) == id
  {
    var receiver := "/receiver/" + id + (if trailingSlash then "/" else "");
    var caller := "/call/" + id + (if trailingSlash then "/" else "");
    assert CurrentPath(receiver) == "/receiver/" + id;
    assert CurrentPath(caller) == "/call/" + id;
    assert StartsWith("/receiver/" + id, "/receiver/");
    assert StartsWith("/call/" + id, "/call/");
    PageKindsAreExclusive(receiver);
    PageKindsAreExclusive(caller);
    var rp, cp := "/receiver/" + id, "/call/" + id;
    assert rp[|rp| - |id|..] == id && rp[|rp| - |id| - 1] == '/';
    assert cp[|cp| - |id|..] == id && cp[|cp| - |id| - 1] == '/';
    TextAfterLastSlashIsUnique(rp, UserIdFromUrl(receiver), id);
    TextAfterLastSlashIsUnique(cp, UserIdFromUrl(caller), id);
  }

  /** A path ending in `//` keeps one `/` after the trim, so it reads as an empty
      user id: `/receiver//` is a receiver page with no id. */
  lemma DoubleSlashGivesEmptyId()
    ensures IsReceiverPage("/receiver//") && UserIdFromUrl("/receiver//") == ""
  {
    var path := CurrentPath("/receiver//");
    assert path == "/receiver/";
    assert StartsWith(path, "/receiver/");
    TextAfterLastSlashIsUnique(path, UserIdFromUrl("/receiver//"), "");
  }
}
