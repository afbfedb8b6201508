/** String handling behind the menu cleaner's link normalisation: the
    pieces of a URL path, the query string, the menu slug built from them,
    and the lookup of one query parameter. */
module Url {

  datatype Option<T> = None | Some(value: T)

  /** `s.split(c)` in JavaScript: the pieces of `s` between occurrences of
      `c`, in order; there is always at least one piece. */
  function Split(s: string, c: char): (parts: seq<string>)
    ensures |parts| >= 1
    ensures forall k :: 0 <= k < |parts| ==> c !in parts[k]
  {
    if s == [] then [""]
    else
      var rest := Split(s[1..], c);
      if s[0] == c then [""] + rest
      else [[s[0]] + rest[0]] + rest[1..]
  }

  /** `parts.join(c)`: the inverse of `Split`. */
  function Join(parts: seq<string>, c: char): string
    requires |parts| >= 1
  {
    if |parts| == 1 then parts[0] else parts[0] + [c] + Join(parts[1..], c)
  }

  lemma {:induction false} JoinSplit(s: string, c: char)
    ensures Join(Split(s, c), c) == s
  {
    if s != [] {
      var rest := Split(s[1..], c);
      JoinSplit(s[1..], c);
      if s[0] == c {
        assert ([""] + rest)[1..] == rest;
      } else if |rest| > 1 {
        var parts := [[s[0]] + rest[0]] + rest[1..];
        assert parts[1..] == rest[1..];
        assert Join(rest, c) == rest[0] + [c] + Join(rest[1..], c);
        assert s == [s[0]] + s[1..];
      } else {
        assert s == [s[0]] + s[1..];
      }
    }
  }

  lemma {:induction false} SplitJoin(parts: seq<string>, c: char)
    requires |parts| >= 1
    requires forall k :: 0 <= k < |parts| ==> c !in parts[k]
    ensures Split(Join(parts, c), c) == parts
  {
    if |parts| == 1 {
      SplitNoSeparator(parts[0], c);
    } else {
      SplitJoin(parts[1..], c);
      SplitCons(parts[0], Join(parts[1..], c), c);
      assert parts == [parts[0]] + parts[1..];
    }
  }

  /** A string without the separator is a single piece. */
  lemma {:induction false} SplitNoSeparator(s: string, c: char)
    requires c !in s
    ensures Split(s, c) == [s]
  {
    if s != [] {
      SplitNoSeparator(s[1..], c);
      assert s == [s[0]] + s[1..];
    }
  }

  /** Splitting `a + [c] + b` where `a` has no separator yields `a` followed
      by the pieces of `b`. */
  lemma {:induction false} SplitCons(a: string, b: string, c: char)
    requires c !in a
    ensures Split(a + [c] + b, c) == [a] + Split(b, c)
  {
    if a == [] {
      assert ([c] + b)[1..] == b;
    } else {
      assert (a + [c] + b)[1..] == a[1..] + [c] + b;
      SplitCons(a[1..], b, c);
      assert a == [a[0]] + a[1..];
    }
  }

  lemma {:induction false} JoinLast(parts: seq<string>, c: char)
    requires |parts| >= 2
    ensures Join(parts, c) == Join(parts[..|parts| - 1], c) + [c] + parts[|parts| - 1]
  {
    if |parts| > 2 {
      JoinLast(parts[1..], c);
      assert parts[1..][..|parts| - 2] == parts[..|parts| - 1][1..];
    }
  }

  /** `pathname.split('/').pop() || ''`: the last `/`-separated segment of
      a path (empty when the path ends in `/`). `pop` never sees an empty
      array, because `Split` always has a piece. */
  function LastSegment(path: string): string
  {
    var parts := Split(path, '/');
    parts[|parts| - 1]
  }

  /** The last segment is the longest `/`-free suffix of the path: it has
      no `/`, it ends the path, and it is either the whole path or is
      preceded by a `/`. */
  lemma LastSegmentIsFinalSegment(path: string)
    ensures var seg := LastSegment(path);
      && '/' !in seg
      && |seg| <= |path|
      && path[|path| - |seg|..] == seg
      && (|seg| < |path| ==> path[|path| - |seg| - 1] == '/')
  {
    var parts := Split(path, '/');
    var seg := parts[|parts| - 1];
    JoinSplit(path, '/');
    if |parts| >= 2 {
      JoinLast(parts, '/');
      var init := Join(parts[..|parts| - 1], '/');
      assert path == init + ['/'] + seg;
      assert path[|path| - |seg|..] == seg;
      assert path[|path| - |seg| - 1] == '/';
    }
  }

  /** The pieces of a path that end in a `/` have an empty last segment. */
  lemma TrailingSlashEmptySegment(path: string)
    requires |path| > 0 && path[|path| - 1] == '/'
    ensures LastSegment(path) == ""
  {
    LastSegmentIsFinalSegment(path);
  }

  /** `search ? search.replace(/^\?/, '') : ''`: the query without its
      leading `?` (only the first `?` is removed). */
  function QueryOf(search: string): string
  {
    if |search| > 0 && search[0] == '?' then search[1..] else search
  }

  /** The menu slug of a URL: its last path segment, followed by `?` and
      the query when the query is non-empty. */
  function Slug(path: string, search: string): string
  {
    var rel := LastSegment(path);
    var q := QueryOf(search);
    if q != "" then rel + "?" + q else rel
  }

  /** Cutting a string at the first occurrence of `c`: the part before it
      and the part after it; without `c` the whole string and "". */
  function Cut(s: string, c: char): (r: (string, string))
    ensures c !in r.0
    ensures c in s ==> s == r.0 + [c] + r.1
    ensures c !in s ==> r == (s, "")
  {
    if s == [] then ("", "")
    else if s[0] == c then ("", s[1..])
    else
      var rest := Cut(s[1..], c);
      assert s == [s[0]] + s[1..];
      ([s[0]] + rest.0, rest.1)
  }

  /** Cutting is determined by where the first `c` is. */
  lemma {:induction false} CutAt(a: string, b: string, c: char)
    requires c !in a
    ensures Cut(a + [c] + b, c) == (a, b)
  {
    if a == [] {
      assert ([c] + b)[1..] == b;
    } else {
      assert (a + [c] + b)[1..] == a[1..] + [c] + b;
      CutAt(a[1..], b, c);
      assert a == [a[0]] + a[1..];
    }
  }

  /** A slug can be taken apart again at its first `?` into the path's
      last segment and the query, provided the path holds no raw `?` (a
      parsed URL's pathname never does). */
  lemma SlugRoundTrip(path: string, search: string)
    requires '?' !in path
    ensures Cut(Slug(path, search), '?') == (LastSegment(path), QueryOf(search))
  {
    var rel := LastSegment(path);
    LastSegmentIsFinalSegment(path);
    assert '?' !in rel by {
      forall k | 0 <= k < |rel| ensures rel[k] != '?' {
        assert rel[k] == path[|path| - |rel| + k];
      }
    }
    if QueryOf(search) != "" {
      CutAt(rel, QueryOf(search), '?');
    }
  }

  /** A slug has a `?` exactly when the URL had a non-empty query. */
  lemma SlugHasQueryMark(path: string, search: string)
    requires '?' !in path
    ensures '?' in Slug(path, search) <==> QueryOf(search) != ""
  {
    SlugRoundTrip(path, search);
    var rel := LastSegment(path);
    if QueryOf(search) != "" {
      assert Slug(path, search)[|rel|] == '?';
    }
  }

  /** Two URLs give the same slug iff their last path segments and their
      queries agree. */
  lemma SlugInjective(p1: string, s1: string, p2: string, s2: string)
    requires '?' !in p1 && '?' !in p2
    ensures Slug(p1, s1) == Slug(p2, s2)
        <==> LastSegment(p1) == LastSegment(p2) && QueryOf(s1) == QueryOf(s2)
  {
    SlugRoundTrip(p1, s1);
    SlugRoundTrip(p2, s2);
  }

  /** One name/value pair of a query string. */
  datatype Param = Param(name: string, value: string)

  /** The pairs of a query as `URLSearchParams` lists them, without its
      percent-decoding: the `&`-separated pieces, empty pieces skipped,
      each cut at its first `=` (a piece with no `=` has value ""). */
  function Params(query: string): seq<Param>
  {
    PiecesToParams(Split(query, '&'))
  }

  function PiecesToParams(pieces: seq<string>): (ps: seq<Param>)
    ensures |ps| <= |pieces|
  {
    if pieces == [] then []
    else
      var head := if pieces[0] == "" then [] else [Param(Cut(pieces[0], '=').0, Cut(pieces[0], '=').1)];
      head + PiecesToParams(pieces[1..])
  }

  /** `params.get(name)`: the value of the first pair with that name. */
  function Lookup(ps: seq<Param>, name: string): Option<string>
  {
    if ps == [] then None
    else if ps[0].name == name then Some(ps[0].value)
    else Lookup(ps[1..], name)
  }

  /** `Lookup` finds nothing iff no pair has the name, and otherwise the
      value of the first pair that has it. */
  lemma {:induction false} LookupFirst(ps: seq<Param>, name: string)
    ensures Lookup(ps, name).None? <==> forall i :: 0 <= i < |ps| ==> ps[i].name != name
    ensures Lookup(ps, name).Some? ==>
      exists i :: 0 <= i < |ps| && ps[i] == Param(name, Lookup(ps, name).value)
        && forall j :: 0 <= j < i ==> ps[j].name != name
  {
    if ps != [] && ps[0].name != name {
      LookupFirst(ps[1..], name);
      var r := Lookup(ps[1..], name);
      if r.Some? {
        var i :| 0 <= i < |ps[1..]| && ps[1..][i] == Param(name, r.value)
                 && forall j :: 0 <= j < i ==> ps[1..][j].name != name;
        assert ps[i + 1] == Param(name, r.value);
        assert forall j :: 0 <= j < i + 1 ==> ps[j].name != name by {
          forall j | 0 <= j < i + 1 ensures ps[j].name != name {
            if j > 0 { assert ps[j] == ps[1..][j - 1]; }
          }
        }
      } else {
        forall i | 0 <= i < |ps| ensures ps[i].name != name {
          if i > 0 { assert ps[i] == ps[1..][i - 1]; }
        }
      }
    }
  }

  /** The pairs of a query with one non-empty `name=value` piece. */
  lemma {:induction false} OnePairParams(n: string, v: string, piece: string)
    requires '=' !in n && n != "" && piece == n + "=" + v
    ensures PiecesToParams([piece]) == [Param(n, v)]
  {
    CutAt(n, v, '=');
    assert [piece][1..] == [];
  }

  /** The pairs of a query `n1=v1&n2=v2`. */
  lemma {:induction false} TwoPairParams(n1: string, v1: string, n2: string, v2: string, query: string)
    requires '=' !in n1 && n1 != "" && '=' !in n2 && n2 != ""
    requires '&' !in n1 + v1 + n2 + v2
    requires query == n1 + "=" + v1 + "&" + n2 + "=" + v2
    ensures Params(query) == [Param(n1, v1), Param(n2, v2)]
  {
    var p1 := n1 + "=" + v1;
    var p2 := n2 + "=" + v2;
    assert '&' !in p1 && '&' !in p2;
    SplitJoin([p1, p2], '&');
    assert [p1, p2][1..] == [p2];
    assert query == p1 + "&" + p2;
    OnePairParams(n1, v1, p1);
    OnePairParams(n2, v2, p2);
    CutAt(n1, v1, '=');
  }

  function GetParam(query: string, name: string): Option<string>
  {
    Lookup(Params(query), name)
  }

  predicate StartsWith(s: string, prefix: string)
  {
    |prefix| <= |s| && s[..|prefix|] == prefix
  }

  /** `s.includes(sub)`. */
  predicate Contains(s: string, sub: string)
  {
    StartsWith(s, sub) || (|s| > 0 && Contains(s[1..], sub))
  }

  /** `isWPAdmin`: the page's path mentions `/wp-admin/`. */
  predicate IsWPAdmin(pathname: string)
  {
    Contains(pathname, "/wp-admin/")
  }
}
