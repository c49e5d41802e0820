/** The download checkpoint of `internal/downloader/state.go`: one item per media entry with
    a status and a size, a URL index derived from the items, and the status updates and
    queries the downloader uses. Clock readings are parameters (`now`); the JSON file
    behind `Save` and `LoadCheckpoint` is abstracted as what writing and reading it end in. */
module Checkpoints {
  import opened Wrappers
  import MediaExtractor

  /** `CheckpointStatus` is an open string type; these are its four named values. */
  const Pending: string := "pending"
  const Done: string := "done"
  const Skipped: string := "skipped"
  const Failed: string := "failed"

  /** `checkpointVersion`. */
  const CurrentVersion: int := 1

  /** `CheckpointItem`. */
  datatype Item = Item(index: int, url: string, kind: string, status: string, size: int)

  /** The exported fields of a checkpoint, as they are serialised. */
  datatype Record = Record(version: int, user: string, runId: string, createdAt: int, updatedAt: int, items: seq<Item>)

  /** The index `ix` builds: each non-empty URL to the position of its last occurrence. */
  function UrlIndex(items: seq<Item>): map<string, int>
  {
    if items == [] then map[]
    else
      var m := UrlIndex(items[..|items| - 1]);
      var last := items[|items| - 1];
      if last.url != [] then m[last.url := |items| - 1] else m
  }

  /** The index holds exactly the non-empty URLs, each at its last position. */
  lemma {:induction false} UrlIndexLast(items: seq<Item>)
    ensures forall u :: u in UrlIndex(items) <==> u != [] && exists i :: 0 <= i < |items| && items[i].url == u
    ensures forall u :: u in UrlIndex(items) ==>
      && 0 <= UrlIndex(items)[u] < |items|
      && items[UrlIndex(items)[u]].url == u
      && forall j :: UrlIndex(items)[u] < j < |items| ==> items[j].url != u
  {
    if items != [] {
      var p := items[..|items| - 1];
      UrlIndexLast(p);
      forall u ensures u in UrlIndex(items) <==> u != [] && exists i :: 0 <= i < |items| && items[i].url == u {
        if u != [] && (exists i :: 0 <= i < |items| && items[i].url == u) {
          var i :| 0 <= i < |items| && items[i].url == u;
          if i < |p| {
            assert p[i].url == u;
          }
        }
      }
    }
  }

  /** The index depends on the URLs alone. */
  lemma {:induction false} UrlIndexSameUrls(a: seq<Item>, b: seq<Item>)
    requires |a| == |b| && forall i :: 0 <= i < |a| ==> a[i].url == b[i].url
    ensures UrlIndex(a) == UrlIndex(b)
  {
    if a != [] {
      UrlIndexSameUrls(a[..|a| - 1], b[..|b| - 1]);
    }
  }

  /** `MarkByIndex`'s change to one item: the status always, the size only when `sz >= 0`. */
  function Marked(it: Item, s: string, sz: int): Item
  {
    it.(status := s, size := if sz >= 0 then sz else it.size)
  }

  /** The items `PendingItems` returns. */
  function PendingOf(items: seq<Item>): seq<Item>
  {
    if items == [] then []
    else PendingOf(items[..|items| - 1]) + (if items[|items| - 1].status == Pending then [items[|items| - 1]] else [])
  }

  /** How many items have status `s`. */
  function CountStatus(items: seq<Item>, s: string): nat
  {
    if items == [] then 0
    else CountStatus(items[..|items| - 1], s) + (if items[|items| - 1].status == s then 1 else 0)
  }

  class Checkpoint {
    var version: int
    var user: string
    var runId: string
    var createdAt: int
    var updatedAt: int
    var items: seq<Item>
    /** `urlIndex`; `None` is a nil map, as in a checkpoint not built by this module. */
    var urlIndex: Option<map<string, int>>

    /** A built index agrees with the items. */
    ghost predicate Valid()
      reads this
    {
      urlIndex.Some? ==> urlIndex.value == UrlIndex(items)
    }

    function Snapshot(): Record
      reads this
    {
      Record(version, user, runId, createdAt, updatedAt, items)
    }

    /** `NewCheckpoint`: one pending item of size 0 per media entry, at its position. */
    constructor NewCheckpoint(user: string, runId: string, medias: seq<MediaExtractor.Media>, now: int)
      ensures version == CurrentVersion && this.user == user && this.runId == runId
      ensures createdAt == now && updatedAt == now
      ensures |items| == |medias|
      ensures forall i :: 0 <= i < |medias| ==> items[i] == Item(i, medias[i].url, medias[i].kind, Pending, 0)
      ensures urlIndex == Some(UrlIndex(items)) && Valid()
    {
      var xs: seq<Item> := [];
      for i := 0 to |medias|
        invariant |xs| == i
        invariant forall j :: 0 <= j < i ==> xs[j] == Item(j, medias[j].url, medias[j].kind, Pending, 0)
      {
        xs := xs + [Item(i, medias[i].url, medias[i].kind, Pending, 0)];
      }
      version, this.user, this.runId := CurrentVersion, user, runId;
      createdAt, updatedAt, items := now, now, xs;
      urlIndex := None;
      new;
      Ix();
    }

    /** A checkpoint as `json.Unmarshal` fills one in: the decoded fields and no index. */
    constructor FromRecord(d: Record)
      ensures Snapshot() == d && urlIndex.None?
    {
      version, user, runId, createdAt, updatedAt, items := d.version, d.user, d.runId, d.createdAt, d.updatedAt, d.items;
      urlIndex := None;
    }

    /** `ix`: rebuilds the URL index from the items. */
    method Ix()
      modifies this
      ensures urlIndex == Some(UrlIndex(items)) && Valid()
      ensures items == old(items) && version == old(version) && user == old(user) && runId == old(runId)
      ensures createdAt == old(createdAt) && updatedAt == old(updatedAt)
    {
      var m: map<string, int> := map[];
      for i := 0 to |items|
        invariant m == UrlIndex(items[..i])
      {
        assert items[..i + 1][..i] == items[..i];
        if items[i].url != [] {
          m := m[items[i].url := i];
        }
      }
      assert items[..|items|] == items;
      urlIndex := Some(m);
    }

    /** `touch`. */
    method Touch(now: int)
      modifies this
      ensures updatedAt == now
      ensures items == old(items) && urlIndex == old(urlIndex) && version == old(version)
      ensures user == old(user) && runId == old(runId) && createdAt == old(createdAt)
    {
      updatedAt := now;
    }
  }

  /** `MarkByIndex`: a nil checkpoint or an index outside the items changes nothing (not even
      the update time); otherwise only that item changes, and the update time is refreshed. */
  method MarkByIndex(c: Checkpoint?, idx: int, s: string, sz: int, now: int)
    modifies c
    ensures c != null && !(0 <= idx < |old(c.items)|) ==> unchanged(c)
    ensures c != null && 0 <= idx < |old(c.items)| ==>
      && c.items == old(c.items)[idx := Marked(old(c.items)[idx], s, sz)]
      && c.updatedAt == now
      && c.urlIndex == old(c.urlIndex) && c.version == old(c.version)
      && c.user == old(c.user) && c.runId == old(c.runId) && c.createdAt == old(c.createdAt)
    ensures c != null && old(c.Valid()) ==> c.Valid()
  {
    if c == null {
      return;
    }
    if idx < 0 || idx >= |c.items| {
      return;
    }
    var it := c.items[idx];
    it := it.(status := s);
    if sz >= 0 {
      it := it.(size := sz);
    }
    MarkedKeepsUrls(c.items, idx, s, sz);
    c.items := c.items[idx := it];
    c.Touch(now);
  }

  /** Marking an item changes no URL, so the index stays the same. */
  lemma MarkedKeepsUrls(items: seq<Item>, idx: int, s: string, sz: int)
    requires 0 <= idx < |items|
    ensures UrlIndex(items[idx := Marked(items[idx], s, sz)]) == UrlIndex(items)
  {
    UrlIndexSameUrls(items[idx := Marked(items[idx], s, sz)], items);
  }

  /** The index `MarkByURL` looks `u` up in: the stored one, or a fresh one when it is nil. */
  function IndexUsed(index: Option<map<string, int>>, items: seq<Item>): map<string, int>
  {
    if index.None? then UrlIndex(items) else index.value
  }

  /** `MarkByURL`: a nil checkpoint, an empty URL or one the index lacks changes nothing but a
      missing index (which is built); otherwise it is `MarkByIndex` at the indexed position. */
  method MarkByURL(c: Checkpoint?, u: string, s: string, sz: int, now: int)
    modifies c
    ensures c != null && u == [] ==> unchanged(c)
    ensures c != null && u != [] ==>
      var index := IndexUsed(old(c.urlIndex), old(c.items));
      && c.urlIndex == Some(index)
      && c.version == old(c.version) && c.user == old(c.user) && c.runId == old(c.runId)
      && c.createdAt == old(c.createdAt)
      && (if u in index && 0 <= index[u] < |old(c.items)| then
            c.items == old(c.items)[index[u] := Marked(old(c.items)[index[u]], s, sz)] && c.updatedAt == now
          else
            c.items == old(c.items) && c.updatedAt == old(c.updatedAt))
    ensures c != null && old(c.Valid()) ==> c.Valid()
  {
    if c == null || u == [] {
      return;
    }
    if c.urlIndex.None? {
      c.Ix();
    }
    var index := c.urlIndex.value;
    if u !in index {
      return;
    }
    MarkByIndex(c, index[u], s, sz, now);
  }

  /** On a checkpoint whose index agrees with its items, `MarkByURL` marks the last item with
      that URL when there is one. */
  lemma MarkByURLTarget(items: seq<Item>, index: Option<map<string, int>>, u: string)
    requires index.Some? ==> index.value == UrlIndex(items)
    requires u != []
    ensures var m := IndexUsed(index, items);
      && (u in m <==> exists i :: 0 <= i < |items| && items[i].url == u)
      && (u in m ==> 0 <= m[u] < |items| && items[m[u]].url == u
                     && forall j :: m[u] < j < |items| ==> items[j].url != u)
  {
    UrlIndexLast(items);
  }

  /** `PendingItems`: the pending items in their order (none for a nil checkpoint); the
      checkpoint is not changed. */
  method PendingItems(c: Checkpoint?) returns (out: seq<Item>)
    ensures c == null ==> out == []
    ensures c != null ==> out == PendingOf(c.items)
  {
    if c == null {
      return [];
    }
    out := [];
    for i := 0 to |c.items|
      invariant out == PendingOf(c.items[..i])
    {
      assert c.items[..i + 1][..i] == c.items[..i];
      if c.items[i].status == Pending {
        out := out + [c.items[i]];
      }
    }
    assert c.items[..|c.items|] == c.items;
  }

  /** `CompletedCount`: how many items are done, skipped and failed (all 0 for nil). */
  method CompletedCount(c: Checkpoint?) returns (done: nat, skipped: nat, failed: nat)
    ensures c == null ==> done == 0 && skipped == 0 && failed == 0
    ensures c != null ==>
      done == CountStatus(c.items, Done) && skipped == CountStatus(c.items, Skipped)
      && failed == CountStatus(c.items, Failed)
  {
    done, skipped, failed := 0, 0, 0;
    if c == null {
      return;
    }
    for i := 0 to |c.items|
      invariant done == CountStatus(c.items[..i], Done)
      invariant skipped == CountStatus(c.items[..i], Skipped)
      invariant failed == CountStatus(c.items[..i], Failed)
    {
      assert c.items[..i + 1][..i] == c.items[..i];
      var st := c.items[i].status;
      if st == Done {
        done := done + 1;
      } else if st == Skipped {
        skipped := skipped + 1;
      } else if st == Failed {
        failed := failed + 1;
      }
    }
    assert c.items[..|c.items|] == c.items;
  }

  /** The pending items are exactly the items with status pending, in order: the filter
      distributes over concatenation, keeps exactly the pending members, and has as many
      elements as there are pending items. */
  lemma {:induction false} PendingOfConcat(a: seq<Item>, b: seq<Item>)
    ensures PendingOf(a + b) == PendingOf(a) + PendingOf(b)
    decreases |b|
  {
    if b == [] {
      assert a + b == a;
    } else {
      var b' := b[..|b| - 1];
      assert (a + b)[..|a + b| - 1] == a + b';
      PendingOfConcat(a, b');
    }
  }

  lemma {:induction false} PendingOfMembers(items: seq<Item>)
    ensures forall x :: x in PendingOf(items) <==> x in items && x.status == Pending
    ensures |PendingOf(items)| == CountStatus(items, Pending)
  {
    if items != [] {
      var p := items[..|items| - 1];
      PendingOfMembers(p);
      assert items == p + [items[|items| - 1]];
    }
  }

  /** A status is one of the four named ones. */
  predicate Known(s: string)
  {
    s == Pending || s == Done || s == Skipped || s == Failed
  }

  /** The three counts and the pending items never exceed the items, and account for all of
      them when every status is a named one. */
  lemma {:induction false} CountsCoverItems(items: seq<Item>)
    ensures CountStatus(items, Done) + CountStatus(items, Skipped) + CountStatus(items, Failed)
            + |PendingOf(items)| <= |items|
    ensures (forall i :: 0 <= i < |items| ==> Known(items[i].status)) ==>
      CountStatus(items, Done) + CountStatus(items, Skipped) + CountStatus(items, Failed)
      + |PendingOf(items)| == |items|
  {
    if items != [] {
      var p := items[..|items| - 1];
      CountsCoverItems(p);
      PendingOfMembers(items);
      PendingOfMembers(p);
      if forall i :: 0 <= i < |items| ==> Known(items[i].status) {
        assert forall i :: 0 <= i < |p| ==> Known(p[i].status) by {
          forall i | 0 <= i < |p| ensures Known(p[i].status) {
            assert p[i] == items[i];
          }
        }
      }
    }
  }

  /** `Save`: a nil checkpoint or an empty path is an error and nothing is written; otherwise
      the update time is refreshed first and the refreshed record is what gets written.
      `persist` is what creating the directory and writing the file end in. */
  method Save(c: Checkpoint?, p: string, now: int, persist: Record -> Option<string>) returns (err: Option<string>)
    modifies c
    ensures c == null ==> err == Some("nil checkpoint")
    ensures c != null && p == [] ==> err == Some("empty checkpoint path") && unchanged(c)
    ensures c != null && p != [] ==>
      && c.Snapshot() == old(c.Snapshot()).(updatedAt := now)
      && c.urlIndex == old(c.urlIndex)
      && err == persist(c.Snapshot())
  {
    if c == null {
      return Some("nil checkpoint");
    }
    if p == [] {
      return Some("empty checkpoint path");
    }
    c.Touch(now);
    err := persist(c.Snapshot());
  }

  /** The version a loaded checkpoint gets: a non-positive one becomes the current version. */
  function FixVersion(v: int): (r: int)
    ensures r >= 1
    ensures v >= 1 ==> r == v
    ensures v <= 0 ==> r == CurrentVersion
  {
    if v <= 0 then CurrentVersion else v
  }

  /** `LoadCheckpoint`; `decoded` is what reading and decoding the file end in. An empty path
      is an error before any read; a loaded checkpoint has its version fixed up and its index
      rebuilt. */
  method LoadCheckpoint(p: string, decoded: Result<Record, string>) returns (r: Result<Checkpoint, string>)
    ensures p == [] ==> r == Failure("empty checkpoint path")
    ensures p != [] && decoded.Failure? ==> r == Failure(decoded.error)
    ensures p != [] && decoded.Success? ==>
      && r.Success? && fresh(r.value)
      && r.value.Snapshot() == decoded.value.(version := FixVersion(decoded.value.version))
      && r.value.urlIndex == Some(UrlIndex(decoded.value.items)) && r.value.Valid()
  {
    if p == [] {
      return Failure("empty checkpoint path");
    }
    if decoded.Failure? {
      return Failure(decoded.error);
    }
    var cp := new Checkpoint.FromRecord(decoded.value);
    if cp.version <= 0 {
      cp.version := CurrentVersion;
    }
    cp.Ix();
    return Success(cp);
  }
}
