/** `sort.Strings` on the keys of a map, as the crawl uses it to order its output: the keys
    come out of the map in no particular order and are placed into ascending order. */
module Ordering {
  import opened Strings

  /** Strictly ascending in the byte order of `sort.Strings`; so also free of duplicates. */
  predicate StrictlySorted(s: seq<string>)
  {
    forall i, j :: 0 <= i < j < |s| ==> Less(s[i], s[j])
  }

  /** `x` placed into the ascending sequence `s`. */
  function Insert(s: seq<string>, x: string): (r: seq<string>)
    requires StrictlySorted(s) && x !in s
    ensures |r| == |s| + 1
    ensures forall y :: y in r <==> y in s || y == x
    ensures StrictlySorted(r)
  {
    if s == [] then [x]
    else if Less(x, s[0]) then
      InsertFront(s, x);
      [x] + s
    else
      LessTotal(x, s[0]);
      var t := Insert(s[1..], x);
      assert forall y :: y in t ==> Less(s[0], y) by {
        forall y | y in t ensures Less(s[0], y) {
          if y != x {
            var k :| 1 <= k < |s| && s[k] == y;
          }
        }
      }
      [s[0]] + t
  }

  lemma InsertFront(s: seq<string>, x: string)
    requires StrictlySorted(s) && s != [] && Less(x, s[0])
    ensures StrictlySorted([x] + s)
  {
    var r := [x] + s;
    forall i, j | 0 <= i < j < |r| ensures Less(r[i], r[j]) {
      if i == 0 && j > 1 {
        LessTransitive(x, s[0], s[j - 1]);
      }
    }
  }

  /** The keys of `m` in ascending order. */
  method SortedKeys<V>(m: map<string, V>) returns (keys: seq<string>)
    ensures StrictlySorted(keys)
    ensures forall k :: k in keys <==> k in m
    ensures |keys| == |m|
  {
    keys := [];
    var left := m.Keys;
    while left != {}
      invariant left <= m.Keys
      invariant StrictlySorted(keys)
      invariant forall k :: k in keys <==> k in m && k !in left
      invariant |keys| + |left| == |m|
      decreases |left|
    {
      var k :| k in left;
      keys := Insert(keys, k);
      left := left - {k};
    }
  }

  /** A strictly ascending sequence has no repeated element. */
  lemma SortedDistinct(s: seq<string>)
    requires StrictlySorted(s)
    ensures forall i, j :: 0 <= i < j < |s| ==> s[i] != s[j]
  {
    forall i, j | 0 <= i < j < |s| ensures s[i] != s[j] {
      LessIrreflexive(s[i]);
    }
  }
}
