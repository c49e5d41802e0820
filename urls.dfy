/** A simplified model of the parts of Go's `net/url` and `path` that the extractor uses:
    splitting a URL into scheme, the text between scheme and query, raw query and fragment;
    finding the host and the path; reading one query parameter; and `path.Base`.
    Percent-escapes are kept as they are written (no unescaping or re-escaping). */
module Urls {
  import opened Wrappers
  import opened Strings

  /** `scheme:rest?rawQuery#fragment`; `rest` holds `//authority/path` or a bare path. */
  datatype Url = Url(scheme: string, rest: string, rawQuery: string, fragment: string)

  /** An ASCII control byte. `url.Parse` rejects one before the '#'; this model rejects one
      anywhere in the string, the fragment included. */
  predicate HasControl(s: string)
  {
    exists i :: 0 <= i < |s| && (s[i] < ' ' || s[i] == '\U{7F}')
  }

  predicate IsLetter(c: char)
  {
    ('a' <= c <= 'z') || ('A' <= c <= 'Z')
  }

  predicate IsSchemeChar(c: char)
  {
    IsLetter(c) || ('0' <= c <= '9') || c == '+' || c == '-' || c == '.'
  }

  /** Go's `getScheme`: the text before the first ':' is a scheme when it is non-empty,
      starts with a letter and holds only scheme characters. */
  predicate ValidScheme(s: string)
  {
    s != [] && IsLetter(s[0]) && forall i :: 0 <= i < |s| ==> IsSchemeChar(s[i])
  }

  predicate HasScheme(pre: string)
  {
    var k := IndexOf(pre, ':');
    k < |pre| && ValidScheme(pre[..k])
  }

  /** `url.Parse`, for the error cases modelled here: a control character, a leading ':'
      ("missing protocol scheme"), and a colon in the first segment of a scheme-less
      relative reference. */
  function Parse(u: string): (r: Option<Url>)
    ensures HasControl(u) ==> r.None?
  {
    if HasControl(u) then None
    else
      var main := Before(u, '#');
      var frag := After(u, '#');
      var pre := Before(main, '?');
      var query := After(main, '?');
      if pre != [] && pre[0] == ':' then None
      else if HasScheme(pre) then
        var k := IndexOf(pre, ':');
        Some(Url(pre[..k], pre[k + 1..], query, frag))
      else if !("/" <= pre) && ':' in Before(pre, '/') then None
      else Some(Url([], pre, query, frag))
  }

  /** `URL.String()`: the scheme is written lower-cased, an empty query or fragment is left out. */
  function ToString(u: Url): string
  {
    (if u.scheme != [] then ToLower(u.scheme) + ":" else [])
    + u.rest
    + (if u.rawQuery != [] then "?" + u.rawQuery else [])
    + (if u.fragment != [] then "#" + u.fragment else [])
  }

  /** Whether `rest` starts with an authority (`//host`), as Go decides it. */
  predicate HasAuthority(u: Url)
  {
    "//" <= u.rest && (u.scheme != [] || !("///" <= u.rest))
  }

  function Authority(u: Url): string
  {
    if HasAuthority(u) then Before(u.rest[2..], '/') else []
  }

  /** The text after the last `c` in `s` (all of `s` when there is none). */
  function AfterLast(s: string, c: char): (r: string)
    ensures |r| <= |s| && c !in r
  {
    if s == [] then []
    else if s[|s| - 1] == c then []
    else AfterLast(s[..|s| - 1], c) + [s[|s| - 1]]
  }

  /** `URL.Host`: the authority without its user information. */
  function Host(u: Url): string
  {
    AfterLast(Authority(u), '@')
  }

  /** `URL.Path`: empty for an opaque URL, what follows the authority otherwise. */
  function Path(u: Url): string
  {
    if u.scheme != [] && !("/" <= u.rest) then []
    else if HasAuthority(u) then u.rest[2 + |Authority(u)|..]
    else u.rest
  }

  /** `url.Values.Get(key)` on `URL.Query()`: the value of the first well-formed
      `key=value` pair, "" when there is none; pairs holding ';' are dropped. */
  function QueryValue(q: string, key: string): string
    decreases |q|
  {
    if q == [] then []
    else
      var pair := Before(q, '&');
      var more := After(q, '&');
      assert |more| < |q|;
      if ';' in pair || pair == [] || Before(pair, '=') != key then QueryValue(more, key)
      else After(pair, '=')
  }

  /** `path.Base`: the last slash-separated element, "." for "" and "/" for only slashes. */
  function PathBase(p: string): (r: string)
    ensures r != []
  {
    if p == [] then "."
    else
      var t := TrimRightSet(p, {'/'});
      if t == [] then "/" else AfterLast(t, '/')
  }

  /** The text after the last '/' of a path ending in "/" and a name without '/' is the name. */
  lemma {:induction false} AfterLastSlash(x: string, n: string)
    requires '/' !in n
    ensures AfterLast(x + "/" + n, '/') == n
    decreases |n|
  {
    var w := x + "/" + n;
    if n == [] {
      assert w[|w| - 1] == '/';
    } else {
      assert w[..|w| - 1] == x + "/" + n[..|n| - 1];
      AfterLastSlash(x, n[..|n| - 1]);
      assert n == n[..|n| - 1] + [n[|n| - 1]];
    }
  }

  /** A string without `c` is all "after the last `c`". */
  lemma {:induction false} AfterLastNone(s: string, c: char)
    requires c !in s
    ensures AfterLast(s, c) == s
    decreases |s|
  {
    if s != [] {
      assert s[..|s| - 1] + [s[|s| - 1]] == s;
      AfterLastNone(s[..|s| - 1], c);
    }
  }

  /** A non-empty path without '/' is its own base. */
  lemma PathBaseNoSlash(s: string)
    requires s != [] && '/' !in s
    ensures PathBase(s) == s
  {
    assert TrimRightSet(s, {'/'}) == s;
    AfterLastNone(s, '/');
  }

  /** The base of a path ending in "/" and a non-empty name without '/' is the name. */
  lemma PathBaseName(x: string, n: string)
    requires n != [] && '/' !in n
    ensures PathBase(x + "/" + n) == n
  {
    var p := x + "/" + n;
    assert p[|p| - 1] == n[|n| - 1];
    assert TrimRightSet(p, {'/'}) == p;
    AfterLastSlash(x, n);
  }

  // ---------------------------------------------------------------------------
  // Re-parsing what ToString writes

  lemma FirstIndexAt(s: string, c: char, k: nat)
    requires k < |s| && s[k] == c
    requires forall i :: 0 <= i < k ==> s[i] != c
    ensures IndexOf(s, c) == k
  {
  }

  lemma SplitAt(a: string, c: char, b: string)
    requires c !in a
    ensures Before(a + [c] + b, c) == a && After(a + [c] + b, c) == b
  {
    var s := a + [c] + b;
    forall i | 0 <= i < |a| ensures s[i] != c { assert s[i] == a[i]; }
    FirstIndexAt(s, c, |a|);
    assert s[..|a|] == a;
    assert s[|a| + 1..] == b;
  }

  lemma SplitNone(a: string, c: char)
    requires c !in a
    ensures Before(a, c) == a && After(a, c) == []
  {
  }

  lemma NoControlConcat(a: string, b: string)
    requires !HasControl(a) && !HasControl(b)
    ensures !HasControl(a + b)
  {
    forall i | 0 <= i < |a + b| ensures !((a + b)[i] < ' ' || (a + b)[i] == '\U{7F}') {
      if i < |a| { assert (a + b)[i] == a[i]; } else { assert (a + b)[i] == b[i - |a|]; }
    }
  }

  /** What `Parse` guarantees of the parts it returns. */
  ghost predicate Parsed(w: Url)
  {
    && !HasControl(w.scheme) && !HasControl(w.rest) && !HasControl(w.rawQuery) && !HasControl(w.fragment)
    && '#' !in w.scheme && '#' !in w.rest && '#' !in w.rawQuery
    && '?' !in w.scheme && '?' !in w.rest
    && (w.scheme != [] ==> ValidScheme(w.scheme))
    && (w.scheme == [] ==>
          && !HasScheme(w.rest)
          && !(w.rest != [] && w.rest[0] == ':')
          && ("/" <= w.rest || ':' !in Before(w.rest, '/')))
  }

  lemma NoControlPart(s: string, t: string)
    requires !HasControl(s)
    requires forall c :: c in t ==> c in s
    ensures !HasControl(t)
  {
    forall i | 0 <= i < |t| ensures !(t[i] < ' ' || t[i] == '\U{7F}') {
      assert t[i] in s;
    }
  }

  lemma CharsOfSlice(s: string, i: nat, j: nat)
    requires i <= j <= |s|
    ensures forall c :: c in s[i..j] ==> c in s
  {
    forall c | c in s[i..j] ensures c in s {
      var k :| 0 <= k < j - i && s[i..j][k] == c;
      assert s[i + k] == c;
    }
  }

  lemma CharsOfSplit(s: string, c: char)
    ensures forall x :: x in Before(s, c) ==> x in s
    ensures forall x :: x in After(s, c) ==> x in s
  {
    var k := IndexOf(s, c);
    CharsOfSlice(s, 0, k);
    if k < |s| { CharsOfSlice(s, k + 1, |s|); }
  }

  lemma ParseGivesParsed(u: string)
    requires Parse(u).Some?
    ensures Parsed(Parse(u).value)
  {
    var w := Parse(u).value;
    var main := Before(u, '#');
    var pre := Before(main, '?');
    CharsOfSplit(u, '#');
    CharsOfSplit(main, '?');
    NoControlPart(u, main);
    NoControlPart(u, w.fragment);
    NoControlPart(main, pre);
    NoControlPart(main, w.rawQuery);
    assert '#' !in pre;
    if HasScheme(pre) {
      var k := IndexOf(pre, ':');
      CharsOfSlice(pre, 0, k);
      CharsOfSlice(pre, k + 1, |pre|);
      NoControlPart(pre, w.scheme);
      NoControlPart(pre, w.rest);
    }
  }

  lemma ToLowerScheme(s: string)
    requires ValidScheme(s)
    ensures ValidScheme(ToLower(s)) && ToLower(ToLower(s)) == ToLower(s)
    ensures !HasControl(ToLower(s)) && ':' !in ToLower(s) && '#' !in ToLower(s) && '?' !in ToLower(s)
  {
    var l := ToLower(s);
    forall i | 0 <= i < |l| ensures IsSchemeChar(l[i]) && LowerChar(l[i]) == l[i] {
      assert IsSchemeChar(s[i]);
    }
    assert ToLower(l) == l;
    forall c | c in l ensures IsSchemeChar(c) { var i :| 0 <= i < |l| && l[i] == c; }
  }

  function SchemePart(w: Url): string
  {
    if w.scheme != [] then ToLower(w.scheme) + ":" else []
  }

  function QueryPart(w: Url): string
  {
    if w.rawQuery != [] then "?" + w.rawQuery else []
  }

  function FragmentPart(w: Url): string
  {
    if w.fragment != [] then "#" + w.fragment else []
  }

  lemma ToStringParts(w: Url)
    ensures ToString(w) == SchemePart(w) + w.rest + QueryPart(w) + FragmentPart(w)
  {
  }

  lemma ToStringNoControl(w: Url)
    requires Parsed(w)
    ensures !HasControl(ToString(w))
    ensures '#' !in SchemePart(w) + w.rest + QueryPart(w)
    ensures '?' !in SchemePart(w) + w.rest
  {
    if w.scheme != [] {
      ToLowerScheme(w.scheme);
      assert !HasControl(":");
      NoControlConcat(ToLower(w.scheme), ":");
    }
    assert !HasControl("?") && !HasControl("#");
    NoControlConcat("?", w.rawQuery);
    NoControlConcat("#", w.fragment);
    NoControlConcat(SchemePart(w), w.rest);
    NoControlConcat(SchemePart(w) + w.rest, QueryPart(w));
    NoControlConcat(SchemePart(w) + w.rest + QueryPart(w), FragmentPart(w));
    ToStringParts(w);
  }

  lemma SplitOptional(head: string, c: char, tail: string)
    requires c !in head
    ensures var s := head + (if tail != [] then [c] + tail else []);
      Before(s, c) == head && After(s, c) == tail
  {
    if tail != [] {
      assert head + ([c] + tail) == head + [c] + tail;
      SplitAt(head, c, tail);
    } else {
      assert head + [] == head;
      SplitNone(head, c);
    }
  }

  lemma SchemeAgain(w: Url)
    requires Parsed(w) && w.scheme != []
    ensures var pre := SchemePart(w) + w.rest;
      pre != [] && pre[0] != ':' && HasScheme(pre)
      && pre[..IndexOf(pre, ':')] == ToLower(w.scheme) && pre[IndexOf(pre, ':') + 1..] == w.rest
  {
    var l := ToLower(w.scheme);
    ToLowerScheme(w.scheme);
    var pre := SchemePart(w) + w.rest;
    assert pre == l + [':'] + w.rest;
    SplitAt(l, ':', w.rest);
    assert pre[..|l|] == l && pre[|l| + 1..] == w.rest;
    assert pre[0] == l[0] && IsLetter(l[0]);
  }

  /** Writing a parsed URL out and parsing it again gives back the same parts, with the
      scheme lower-cased. */
  lemma {:induction false} ParseToString(w: Url)
    requires Parsed(w)
    ensures Parse(ToString(w)) == Some(w.(scheme := ToLower(w.scheme)))
  {
    var s := ToString(w);
    ToStringNoControl(w);
    ToStringParts(w);
    var head := SchemePart(w) + w.rest + QueryPart(w);
    var pre := SchemePart(w) + w.rest;
    SplitOptional(head, '#', w.fragment);
    assert Before(s, '#') == head && After(s, '#') == w.fragment;
    SplitOptional(pre, '?', w.rawQuery);
    assert Before(head, '?') == pre && After(head, '?') == w.rawQuery;
    if w.scheme != [] {
      SchemeAgain(w);
    } else {
      assert pre == w.rest;
    }
  }
}
