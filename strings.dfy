/** The pieces of Go's `strings` and `unicode` packages that the core relies on,
    stated over Dafny strings (sequences of Unicode scalar values). */
module Strings {

  /** Go's `unicode.IsSpace`: the Latin-1 spaces plus the Unicode `White_Space` characters. */
  predicate IsSpace(c: char)
  {
    c == '\t' || c == '\n' || c == '\U{000B}' || c == '\U{000C}' || c == '\r' || c == ' '
    || c == '\U{0085}' || c == '\U{00A0}' || c == '\U{1680}'
    || ('\U{2000}' <= c <= '\U{200A}')
    || c == '\U{2028}' || c == '\U{2029}' || c == '\U{202F}' || c == '\U{205F}' || c == '\U{3000}'
  }

  /** `strings.TrimRight(s, cutset)` / `strings.TrimRightFunc(s, unicode.IsSpace)`: drop the
      longest suffix whose characters all satisfy the cut condition. */
  function TrimRightSet(s: string, cut: set<char>): (r: string)
    ensures r <= s
    ensures r == [] || r[|r| - 1] !in cut
    ensures forall i :: |r| <= i < |s| ==> s[i] in cut
  {
    if s != [] && s[|s| - 1] in cut then TrimRightSet(s[..|s| - 1], cut) else s
  }

  function TrimRightSpace(s: string): (r: string)
    ensures r <= s
    ensures r == [] || !IsSpace(r[|r| - 1])
    ensures forall i :: |r| <= i < |s| ==> IsSpace(s[i])
  {
    if s != [] && IsSpace(s[|s| - 1]) then TrimRightSpace(s[..|s| - 1]) else s
  }

  function TrimLeftSpace(s: string): (r: string)
    ensures |r| <= |s| && r == s[|s| - |r|..]
    ensures r == [] || !IsSpace(r[0])
    ensures forall i :: 0 <= i < |s| - |r| ==> IsSpace(s[i])
  {
    if s != [] && IsSpace(s[0]) then TrimLeftSpace(s[1..]) else s
  }

  /** `strings.TrimSpace`: the result has no white space at either end, and only white
      space was removed. */
  function TrimSpace(s: string): (r: string)
    ensures r == [] || (!IsSpace(r[0]) && !IsSpace(r[|r| - 1]))
    ensures |r| <= |s|
  {
    TrimLeftSpace(TrimRightSpace(s))
  }

  /** Trimming keeps a character-wise property of the kept part. */
  lemma TrimSpaceKeeps(s: string, bad: set<char>)
    requires forall i :: 0 <= i < |s| ==> s[i] !in bad
    ensures forall i :: 0 <= i < |TrimSpace(s)| ==> TrimSpace(s)[i] !in bad
  {
    var r := TrimRightSpace(s);
    forall i | 0 <= i < |r| ensures r[i] !in bad {
      assert r[i] == s[i];
    }
    var t := TrimLeftSpace(r);
    forall i | 0 <= i < |t| ensures t[i] !in bad {
      assert t[i] == r[|r| - |t| + i];
    }
  }

  /** A string is blank when it is all white space. */
  predicate IsBlank(s: string)
  {
    s == [] || (IsSpace(s[0]) && IsBlank(s[1..]))
  }

  /** Blank is what `strings.TrimSpace(s) == ""` tests. */
  lemma {:induction false} BlankIffTrimmedEmpty(s: string)
    ensures IsBlank(s) <==> TrimSpace(s) == []
  {
    AllSpaceRight(s);
    if s != [] && IsSpace(s[0]) {
      BlankIffTrimmedEmpty(s[1..]);
      if TrimRightSpace(s) == [] {
        assert IsBlank(s[1..]) by { BlankWhenAllSpace(s[1..]); }
      }
    }
  }

  lemma {:induction false} BlankWhenAllSpace(s: string)
    requires forall i :: 0 <= i < |s| ==> IsSpace(s[i])
    ensures IsBlank(s)
  {
    if s != [] {
      BlankWhenAllSpace(s[1..]);
    }
  }

  lemma {:induction false} AllSpaceRight(s: string)
    ensures TrimRightSpace(s) == [] <==> forall i :: 0 <= i < |s| ==> IsSpace(s[i])
    ensures TrimSpace(s) == [] <==> TrimRightSpace(s) == []
  {
  }

  /** `unicode.ToLower` restricted to what decides the core's comparisons, all of which are
      against ASCII text: ASCII capitals are lowered, and so are the two other characters whose
      lower case is ASCII, the Kelvin sign (to 'k') and the dotted capital I (to 'i'); every
      other character is kept. */
  function LowerChar(c: char): (d: char)
    ensures 'A' <= c <= 'Z' ==> d as int == c as int + 32
    ensures c == '\U{212A}' ==> d == 'k'
    ensures c == '\U{0130}' ==> d == 'i'
    ensures !('A' <= c <= 'Z') && c != '\U{212A}' && c != '\U{0130}' ==> d == c
  {
    if 'A' <= c <= 'Z' then (c as int + 32) as char
    else if c == '\U{212A}' then 'k'
    else if c == '\U{0130}' then 'i'
    else c
  }

  function ToLower(s: string): (r: string)
    ensures |r| == |s|
    ensures forall i :: 0 <= i < |s| ==> r[i] == LowerChar(s[i])
  {
    seq(|s|, i requires 0 <= i < |s| => LowerChar(s[i]))
  }

  /** `strings.Contains(s, sub)`: `sub` is a prefix of some suffix of `s`. */
  predicate Contains(s: string, sub: string)
  {
    sub <= s || (s != [] && Contains(s[1..], sub))
  }

  /** `Contains` holds exactly when `sub` occurs at some position of `s`. */
  lemma {:induction false} ContainsAt(s: string, sub: string)
    ensures Contains(s, sub) <==> exists i :: 0 <= i <= |s| - |sub| && sub <= s[i..]
  {
    if s != [] {
      ContainsAt(s[1..], sub);
      if exists i :: 0 <= i <= |s| - |sub| && sub <= s[i..] {
        var i :| 0 <= i <= |s| - |sub| && sub <= s[i..];
        if i > 0 {
          assert s[1..][i - 1..] == s[i..];
        }
      }
      if exists i :: 0 <= i <= |s[1..]| - |sub| && sub <= s[1..][i..] {
        var i :| 0 <= i <= |s[1..]| - |sub| && sub <= s[1..][i..];
        assert s[1..][i..] == s[i + 1..];
      }
    }
  }

  /** `strings.TrimPrefix(s, p)`. */
  function TrimPrefix(s: string, p: string): (r: string)
    ensures p <= s ==> s == p + r
    ensures !(p <= s) ==> r == s
  {
    if p <= s then s[|p|..] else s
  }

  /** The position of the first occurrence of `c` in `s`, or `|s|` when there is none. */
  function IndexOf(s: string, c: char): (k: nat)
    ensures k <= |s|
    ensures k < |s| ==> s[k] == c
    ensures forall i :: 0 <= i < k ==> s[i] != c
  {
    if s == [] then 0 else if s[0] == c then 0 else 1 + IndexOf(s[1..], c)
  }

  /** The text before the first `c` (`strings.Cut(s, c)` before-part, `strings.SplitN(s, c, 2)[0]`). */
  function Before(s: string, c: char): (r: string)
    ensures r <= s && c !in r
  {
    s[..IndexOf(s, c)]
  }

  /** The text after the first `c`, and whether there was one. */
  function After(s: string, c: char): (r: string)
    ensures c in s ==> s == Before(s, c) + [c] + r
    ensures c !in s ==> r == []
  {
    var k := IndexOf(s, c);
    if k < |s| then s[k + 1..] else []
  }

  /** `strings.Join(parts, sep)`. */
  function Join(parts: seq<string>, sep: string): (r: string)
    ensures parts == [] ==> r == []
    ensures |parts| == 1 ==> r == parts[0]
  {
    if parts == [] then []
    else if |parts| == 1 then parts[0]
    else parts[0] + sep + Join(parts[1..], sep)
  }

  /** The byte-wise order `sort.Strings` uses. Go compares UTF-8 bytes, and UTF-8 preserves
      the order of code points, so comparing scalar values one by one is the same order. */
  predicate Less(a: string, b: string)
  {
    if b == [] then false
    else if a == [] then true
    else if a[0] != b[0] then a[0] < b[0]
    else Less(a[1..], b[1..])
  }

  lemma {:induction false} LessIrreflexive(a: string)
    ensures !Less(a, a)
  {
    if a != [] { LessIrreflexive(a[1..]); }
  }

  lemma {:induction false} LessTransitive(a: string, b: string, c: string)
    requires Less(a, b) && Less(b, c)
    ensures Less(a, c)
  {
    if a != [] && b != [] && c != [] && a[0] == b[0] && b[0] == c[0] {
      LessTransitive(a[1..], b[1..], c[1..]);
    }
  }

  lemma {:induction false} LessTotal(a: string, b: string)
    requires a != b
    ensures Less(a, b) || Less(b, a)
  {
    if a != [] && b != [] && a[0] == b[0] {
      assert a == [a[0]] + a[1..] && b == [b[0]] + b[1..];
      LessTotal(a[1..], b[1..]);
    }
  }

  lemma {:induction false} LessAsymmetric(a: string, b: string)
    requires Less(a, b)
    ensures !Less(b, a)
  {
    if a != [] && b != [] && a[0] == b[0] {
      LessAsymmetric(a[1..], b[1..]);
    }
  }
}
