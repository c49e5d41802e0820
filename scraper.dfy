/** The media crawl of `internal/scraper/media.go` (`GetMediaLinksForUser`): pages of the
    user's media timeline are requested one cursor after the other, each page's media are
    merged into an accumulator keyed by URL, and the crawl stops on a failed page, on three
    pages in a row that add nothing, when the page names no next cursor or one already
    used, or after 200 pages. The result is the accumulator's media in URL order.
    A page request is the parameter `fetch`: `fetch(pg, cursor)` is what requesting page
    number `pg` with `cursor` ends in. */
module Scraper {
  import opened Wrappers
  import opened Strings
  import opened Json
  import opened MediaExtractor
  import Cursors
  import Config
  import Ordering

  /** `mx`: the most pages one crawl requests. */
  const MaxPages: nat := 200

  /** Pages in a row without a new URL that end the crawl. */
  const StagnantLimit: nat := 3

  /** What one page request ends in: `http.NewRequest` failing, the transport or status check
      failing, a body that is not JSON, or a decoded page. */
  datatype Outcome =
    | BuildFailed(reason: string)
    | TransportFailed(status: int)
    | Undecodable
    | Decoded(page: Value)

  /** The values the loop gives `end`. */
  datatype EndReason = HttpError | ParseError | NoProgress | NoNextCursor | RepeatCursor | MaxPagesReached

  /** `allm`: media by URL. */
  type Accumulator = map<string, Media>

  // ---------------------------------------------------------------------------
  // Merging pages

  /** The merge of one page's media: a URL already present keeps its record. */
  function Merge(allm: Accumulator, pms: seq<Media>): Accumulator
    decreases |pms|
  {
    if pms == [] then allm
    else Merge(if pms[0].url in allm then allm else allm[pms[0].url := pms[0]], pms[1..])
  }

  /** The accumulator after the given pages, merged in order. */
  function MergeAll(pages: seq<seq<Media>>): Accumulator
  {
    if pages == [] then map[] else Merge(MergeAll(pages[..|pages| - 1]), pages[|pages| - 1])
  }

  /** The first record in `pms` with URL `u`. */
  function FirstWith(pms: seq<Media>, u: string): (r: Option<Media>)
    ensures r.Some? ==> r.value in pms && r.value.url == u
    ensures r.None? <==> forall i :: 0 <= i < |pms| ==> pms[i].url != u
  {
    if pms == [] then None
    else if pms[0].url == u then Some(pms[0])
    else FirstWith(pms[1..], u)
  }

  function Lookup(allm: Accumulator, u: string): Option<Media>
  {
    if u in allm then Some(allm[u]) else None
  }

  /** Every page's media, one page after the other. */
  function Flatten(pages: seq<seq<Media>>): seq<Media>
  {
    if pages == [] then [] else Flatten(pages[..|pages| - 1]) + pages[|pages| - 1]
  }

  /** A merge keeps what the accumulator has, and adds the first record of each new URL. */
  lemma {:induction false} MergeLookup(allm: Accumulator, pms: seq<Media>, u: string)
    ensures Lookup(Merge(allm, pms), u) == if u in allm then Some(allm[u]) else FirstWith(pms, u)
    decreases |pms|
  {
    if pms != [] {
      var next := if pms[0].url in allm then allm else allm[pms[0].url := pms[0]];
      MergeLookup(next, pms[1..], u);
    }
  }

  lemma {:induction false} FirstWithConcat(a: seq<Media>, b: seq<Media>, u: string)
    ensures FirstWith(a + b, u) == if FirstWith(a, u).Some? then FirstWith(a, u) else FirstWith(b, u)
  {
    if a == [] {
      assert a + b == b;
    } else {
      assert (a + b)[0] == a[0];
      assert (a + b)[1..] == a[1..] + b;
      FirstWithConcat(a[1..], b, u);
    }
  }

  /** Across all pages the first record seen for a URL is the one the accumulator keeps. */
  lemma {:induction false} MergeAllFirstWins(pages: seq<seq<Media>>, u: string)
    ensures Lookup(MergeAll(pages), u) == FirstWith(Flatten(pages), u)
  {
    if pages != [] {
      var p := pages[..|pages| - 1];
      MergeAllFirstWins(p, u);
      MergeLookup(MergeAll(p), pages[|pages| - 1], u);
      FirstWithConcat(Flatten(p), pages[|pages| - 1], u);
    }
  }

  /** Every record is filed under its own URL. */
  ghost predicate KeyedByUrl(allm: Accumulator)
  {
    forall u :: u in allm ==> allm[u].url == u
  }

  lemma MergeAllKeyed(pages: seq<seq<Media>>)
    ensures KeyedByUrl(MergeAll(pages))
  {
    forall u | u in MergeAll(pages) ensures MergeAll(pages)[u].url == u {
      MergeAllFirstWins(pages, u);
    }
  }

  lemma {:induction false} MergeGrows(allm: Accumulator, pms: seq<Media>)
    ensures allm.Keys <= Merge(allm, pms).Keys
    ensures forall u :: u in allm ==> Merge(allm, pms)[u] == allm[u]
    decreases |pms|
  {
    if pms != [] {
      var next := if pms[0].url in allm then allm else allm[pms[0].url := pms[0]];
      MergeGrows(next, pms[1..]);
    }
  }

  /** How many URLs of the given kind a merge added. */
  function NewOfKind(before: Accumulator, after: Accumulator, kind: string): nat
  {
    |set u | u in after.Keys - before.Keys && after[u].kind == kind|
  }

  lemma NewOfKindNone(before: Accumulator, after: Accumulator, kind: string)
    requires after.Keys <= before.Keys
    ensures NewOfKind(before, after, kind) == 0
  {
    assert after.Keys - before.Keys == {};
  }

  lemma NewOfKindInsert(before: Accumulator, acc: Accumulator, m: Media, kind: string)
    requires before.Keys <= acc.Keys && m.url !in acc
    ensures NewOfKind(before, acc[m.url := m], kind) == NewOfKind(before, acc, kind) + (if m.kind == kind then 1 else 0)
  {
    var acc1 := acc[m.url := m];
    var s0 := set u | u in acc.Keys - before.Keys && acc[u].kind == kind;
    var s1 := set u | u in acc1.Keys - before.Keys && acc1[u].kind == kind;
    if m.kind == kind {
      assert s1 == s0 + {m.url};
    } else {
      assert s1 == s0;
    }
  }

  /** The merge of one page, with the image and video counters of the progress line: a
      counter goes up only when a URL of its kind is inserted. */
  method MergePage(allm: Accumulator, pms: seq<Media>, ic: nat, vc: nat) returns (acc: Accumulator, ic': nat, vc': nat)
    ensures acc == Merge(allm, pms)
    ensures ic' == ic + NewOfKind(allm, acc, "image")
    ensures vc' == vc + NewOfKind(allm, acc, "video")
  {
    acc, ic', vc' := allm, ic, vc;
    NewOfKindNone(allm, acc, "image");
    NewOfKindNone(allm, acc, "video");
    var i := 0;
    while i < |pms|
      invariant 0 <= i <= |pms|
      invariant Merge(acc, pms[i..]) == Merge(allm, pms)
      invariant allm.Keys <= acc.Keys
      invariant ic' == ic + NewOfKind(allm, acc, "image")
      invariant vc' == vc + NewOfKind(allm, acc, "video")
    {
      assert pms[i..][1..] == pms[i + 1..];
      var m := pms[i];
      if m.url !in acc {
        NewOfKindInsert(allm, acc, m, "image");
        NewOfKindInsert(allm, acc, m, "video");
        acc := acc[m.url := m];
        if m.kind == "image" {
          ic' := ic' + 1;
        } else if m.kind == "video" {
          vc' := vc' + 1;
        }
      }
      i := i + 1;
    }
    assert pms[|pms|..] == [];
  }

  // ---------------------------------------------------------------------------
  // Stagnation

  /** `stg` after the given pages: one more than before when a page added nothing, else 0. */
  function Stagnation(pages: seq<seq<Media>>): nat
  {
    if pages == [] then 0
    else
      var p := pages[..|pages| - 1];
      if |MergeAll(pages)| == |MergeAll(p)| then Stagnation(p) + 1 else 0
  }

  /** A page added nothing. */
  ghost predicate Idle(pages: seq<seq<Media>>, k: int)
    requires 0 <= k < |pages|
  {
    |MergeAll(pages[..k + 1])| == |MergeAll(pages[..k])|
  }

  /** The stagnation count is the number of trailing pages that added nothing. */
  lemma {:induction false} StagnationCountsIdlePages(pages: seq<seq<Media>>)
    ensures Stagnation(pages) <= |pages|
    ensures forall k :: |pages| - Stagnation(pages) <= k < |pages| ==> Idle(pages, k)
    ensures Stagnation(pages) < |pages| ==> !Idle(pages, |pages| - 1 - Stagnation(pages))
  {
    if pages != [] {
      var p := pages[..|pages| - 1];
      assert pages[..|pages|] == pages;
      StagnationCountsIdlePages(p);
      forall k | 0 <= k < |p| ensures Idle(p, k) == Idle(pages, k) {
        assert p[..k + 1] == pages[..k + 1] && p[..k] == pages[..k];
      }
      if Idle(pages, |pages| - 1) {
        forall k | |pages| - Stagnation(pages) <= k < |pages| ensures Idle(pages, k) {
          if k < |p| {
            assert Idle(p, k);
          }
        }
      }
    }
  }

  /** The stagnation count after the first `k + 1` pages. */
  ghost function StagAt(pages: seq<seq<Media>>, k: int): nat
    requires 0 <= k < |pages|
  {
    Stagnation(pages[..k + 1])
  }

  /** One more page: it is merged into the accumulator, and the count goes up exactly when it
      added no URL. */
  lemma StagnationStep(pages: seq<seq<Media>>, pms: seq<Media>)
    ensures MergeAll(pages + [pms]) == Merge(MergeAll(pages), pms)
    ensures Stagnation(pages + [pms]) ==
      if |Merge(MergeAll(pages), pms)| == |MergeAll(pages)| then Stagnation(pages) + 1 else 0
  {
    assert (pages + [pms])[..|pages|] == pages;
  }

  lemma StagAtExtend(pages: seq<seq<Media>>, pms: seq<Media>)
    ensures forall k :: 0 <= k < |pages| ==> StagAt(pages + [pms], k) == StagAt(pages, k)
    ensures StagAt(pages + [pms], |pages|) == Stagnation(pages + [pms])
  {
    var q := pages + [pms];
    forall k | 0 <= k < |pages| ensures StagAt(q, k) == StagAt(pages, k) {
      assert q[..k + 1] == pages[..k + 1];
    }
    assert q[..|pages| + 1] == q;
  }

  /** A page that leaves the count below the limit keeps every prefix below it. */
  lemma StagAtBelow(pages: seq<seq<Media>>, pms: seq<Media>)
    requires forall k :: 0 <= k < |pages| ==> StagAt(pages, k) < StagnantLimit
    requires Stagnation(pages + [pms]) < StagnantLimit
    ensures forall k :: 0 <= k < |pages + [pms]| ==> StagAt(pages + [pms], k) < StagnantLimit
  {
    StagAtExtend(pages, pms);
  }

  // ---------------------------------------------------------------------------
  // The crawl

  /** The cursors of a crawl: the first request has none, later ones are non-empty and no
      cursor is sent twice. */
  predicate CursorsOk(cs: seq<string>)
  {
    && |cs| >= 1 && cs[0] == []
    && (forall i :: 0 < i < |cs| ==> cs[i] != [])
    && (forall i, j :: 0 <= i < j < |cs| ==> cs[i] != cs[j])
  }

  lemma CursorsExtend(cs: seq<string>, nx: string)
    requires CursorsOk(cs) && nx != [] && nx !in cs
    ensures CursorsOk(cs + [nx])
  {
  }

  /** Each page but the last was decoded and named the cursor of the next request. */
  ghost predicate Chained(fetch: (nat, string) -> Outcome, sent: seq<string>)
  {
    forall k :: 0 <= k < |sent| - 1 ==>
      fetch(k + 1, sent[k]).Decoded? && Cursors.Next(fetch(k + 1, sent[k]).page) == sent[k + 1]
  }

  lemma ChainedExtend(fetch: (nat, string) -> Outcome, sent: seq<string>, nx: string)
    requires Chained(fetch, sent) && sent != []
    requires LastOutcome(fetch, sent).Decoded? && Cursors.Next(LastOutcome(fetch, sent).page) == nx
    ensures Chained(fetch, sent + [nx])
  {
    var s := sent + [nx];
    forall k | 0 <= k < |s| - 1
      ensures fetch(k + 1, s[k]).Decoded? && Cursors.Next(fetch(k + 1, s[k]).page) == s[k + 1]
    {
      assert s[k] == sent[k];
    }
  }

  /** The fold output of a page: one record per aggregated id. */
  ghost predicate ListsPage(pms: seq<Media>, page: Value)
  {
    && |pms| == |Extract(page)|
    && (forall m :: m in pms <==> m in PageMedia(page))
    && (forall m :: multiset(pms)[m] == Multiplicity(Extract(page), m))
  }

  /** `pages` are the fold outputs of the decoded pages, one per page, in request order. */
  ghost predicate PagesRead(fetch: (nat, string) -> Outcome, sent: seq<string>, pages: seq<seq<Media>>)
  {
    && |pages| <= |sent|
    && forall k :: 0 <= k < |pages| ==>
         fetch(k + 1, sent[k]).Decoded? && ListsPage(pages[k], fetch(k + 1, sent[k]).page)
  }

  lemma PagesReadGrow(fetch: (nat, string) -> Outcome, sent: seq<string>, cur: string, pages: seq<seq<Media>>)
    requires PagesRead(fetch, sent, pages)
    ensures PagesRead(fetch, sent + [cur], pages)
  {
    var s := sent + [cur];
    forall k | 0 <= k < |pages| ensures s[k] == sent[k] { }
  }

  lemma PagesReadExtend(fetch: (nat, string) -> Outcome, sent: seq<string>, cur: string, pages: seq<seq<Media>>, pms: seq<Media>)
    requires PagesRead(fetch, sent, pages) && |pages| == |sent|
    requires fetch(|sent| + 1, cur).Decoded? && ListsPage(pms, fetch(|sent| + 1, cur).page)
    ensures PagesRead(fetch, sent + [cur], pages + [pms])
  {
    var s, q := sent + [cur], pages + [pms];
    forall k | 0 <= k < |q| ensures fetch(k + 1, s[k]).Decoded? && ListsPage(q[k], fetch(k + 1, s[k]).page) {
      if k < |pages| {
        assert s[k] == sent[k] && q[k] == pages[k];
      }
    }
  }

  /** The outcome of the last request. */
  function LastOutcome(fetch: (nat, string) -> Outcome, sent: seq<string>): Outcome
    requires sent != []
  {
    fetch(|sent|, sent[|sent| - 1])
  }

  /** Why the crawl ended, in terms of the last page: a failed request ends it with
      `http_error` or `parse_error`; after a decoded page the stagnation test comes first,
      then the missing cursor, then the repeated cursor, then the page limit. No earlier
      page reached the stagnation limit. */
  ghost predicate Ending(fetch: (nat, string) -> Outcome, sent: seq<string>, pages: seq<seq<Media>>, e: EndReason)
    requires sent != []
  {
    var last := LastOutcome(fetch, sent);
    && !last.BuildFailed?
    && (e == HttpError <==> last.TransportFailed?)
    && (e == ParseError <==> last.Undecodable?)
    && (last.Decoded? ==>
          && |pages| == |sent|
          && var stg := Stagnation(pages);
          && var nx := Cursors.Next(last.page);
          && (e == NoProgress <==> stg >= StagnantLimit)
          && (e == NoNextCursor <==> stg < StagnantLimit && nx == [])
          && (e == RepeatCursor <==> stg < StagnantLimit && nx != [] && nx in sent)
          && (e == MaxPagesReached <==> stg < StagnantLimit && nx != [] && nx !in sent && |sent| == MaxPages))
    && (!last.Decoded? ==> |pages| == |sent| - 1)
    && (forall k :: 0 <= k < |sent| - 1 && k < |pages| ==> StagAt(pages, k) < StagnantLimit)
  }

  lemma FailedEnding(fetch: (nat, string) -> Outcome, sent: seq<string>, cur: string, pages: seq<seq<Media>>, e: EndReason)
    requires |pages| == |sent| && forall k :: 0 <= k < |pages| ==> StagAt(pages, k) < StagnantLimit
    requires fetch(|sent| + 1, cur).TransportFailed? || fetch(|sent| + 1, cur).Undecodable?
    requires e == (if fetch(|sent| + 1, cur).TransportFailed? then HttpError else ParseError)
    ensures Ending(fetch, sent + [cur], pages, e)
  {
    assert LastOutcome(fetch, sent + [cur]) == fetch(|sent| + 1, cur);
  }

  lemma DecodedEnding(fetch: (nat, string) -> Outcome, sent: seq<string>, cur: string, pages: seq<seq<Media>>, pms: seq<Media>, e: EndReason)
    requires |pages| == |sent| && forall k :: 0 <= k < |pages| ==> StagAt(pages, k) < StagnantLimit
    requires fetch(|sent| + 1, cur).Decoded? && e != HttpError && e != ParseError
    requires
      var stg, nx, s := Stagnation(pages + [pms]), Cursors.Next(fetch(|sent| + 1, cur).page), sent + [cur];
      && (e == NoProgress <==> stg >= StagnantLimit)
      && (e == NoNextCursor <==> stg < StagnantLimit && nx == [])
      && (e == RepeatCursor <==> stg < StagnantLimit && nx != [] && nx in s)
      && (e == MaxPagesReached <==> stg < StagnantLimit && nx != [] && nx !in s && |s| == MaxPages)
    ensures Ending(fetch, sent + [cur], pages + [pms], e)
  {
    assert LastOutcome(fetch, sent + [cur]) == fetch(|sent| + 1, cur);
    StagAtExtend(pages, pms);
  }

  /** What `Crawl` reports: distinct cursors, at most `MaxPages` requests, and either the
      reason the last request could not be built or an end reason. */
  predicate Reported(fetch: (nat, string) -> Outcome, buildError: Option<string>, end: Option<EndReason>, sent: seq<string>)
  {
    && CursorsOk(sent) && |sent| <= MaxPages
    && (buildError.Some? <==> LastOutcome(fetch, sent).BuildFailed?)
    && (buildError.Some? ==> buildError.value == LastOutcome(fetch, sent).reason && end.None?)
    && (buildError.None? ==> end.Some?)
  }

  /** What `Crawl` promises about the values it returns, its trace of pages included. */
  ghost predicate Crawled(fetch: (nat, string) -> Outcome, buildError: Option<string>, end: Option<EndReason>,
                          sent: seq<string>, pages: seq<seq<Media>>, allm: Accumulator)
  {
    && Reported(fetch, buildError, end, sent)
    && Chained(fetch, sent)
    && PagesRead(fetch, sent, pages)
    && allm == MergeAll(pages)
    && (buildError.Some? ==> |pages| == |sent| - 1)
    && (buildError.None? ==> Ending(fetch, sent, pages, end.value))
  }

  /** The facts the crawl keeps before requesting the page for `cur`. */
  ghost predicate Pending(fetch: (nat, string) -> Outcome, sent: seq<string>, cur: string, pages: seq<seq<Media>>, allm: Accumulator)
  {
    && CursorsOk(sent + [cur]) && |sent| < MaxPages
    && Chained(fetch, sent + [cur])
    && |pages| == |sent| && PagesRead(fetch, sent, pages)
    && allm == MergeAll(pages)
    && (forall k :: 0 <= k < |pages| ==> StagAt(pages, k) < StagnantLimit)
  }

  lemma BuildExit(fetch: (nat, string) -> Outcome, sent: seq<string>, cur: string, pages: seq<seq<Media>>, allm: Accumulator, o: Outcome)
    requires Pending(fetch, sent, cur, pages, allm) && o == fetch(|sent| + 1, cur) && o.BuildFailed?
    ensures Crawled(fetch, Some(o.reason), None, sent + [cur], pages, allm)
  {
    assert LastOutcome(fetch, sent + [cur]) == fetch(|sent| + 1, cur);
    PagesReadGrow(fetch, sent, cur, pages);
  }

  lemma FailedExit(fetch: (nat, string) -> Outcome, sent: seq<string>, cur: string, pages: seq<seq<Media>>, allm: Accumulator, e: EndReason)
    requires Pending(fetch, sent, cur, pages, allm)
    requires fetch(|sent| + 1, cur).TransportFailed? || fetch(|sent| + 1, cur).Undecodable?
    requires e == (if fetch(|sent| + 1, cur).TransportFailed? then HttpError else ParseError)
    ensures Crawled(fetch, None, Some(e), sent + [cur], pages, allm)
  {
    assert LastOutcome(fetch, sent + [cur]) == fetch(|sent| + 1, cur);
    PagesReadGrow(fetch, sent, cur, pages);
    FailedEnding(fetch, sent, cur, pages, e);
  }

  lemma DecodedExit(fetch: (nat, string) -> Outcome, sent: seq<string>, cur: string, pages: seq<seq<Media>>, pms: seq<Media>,
                    allm0: Accumulator, allm: Accumulator, end: Option<EndReason>, stg: nat, nx: string, known: bool, atMax: bool)
    requires Pending(fetch, sent, cur, pages, allm0)
    requires fetch(|sent| + 1, cur).Decoded? && ListsPage(pms, fetch(|sent| + 1, cur).page)
    requires allm == Merge(allm0, pms) && end.Some? && end != Some(HttpError) && end != Some(ParseError)
    requires stg == Stagnation(pages + [pms]) && nx == Cursors.Next(fetch(|sent| + 1, cur).page)
    requires known == (nx in sent + [cur]) && atMax == (|sent| + 1 == MaxPages)
    requires end == Some(NoProgress) <==> stg >= StagnantLimit
    requires end == Some(NoNextCursor) <==> stg < StagnantLimit && nx == []
    requires end == Some(RepeatCursor) <==> stg < StagnantLimit && nx != [] && known
    requires end == Some(MaxPagesReached) <==> stg < StagnantLimit && nx != [] && !known && atMax
    ensures Crawled(fetch, None, end, sent + [cur], pages + [pms], allm)
  {
    assert LastOutcome(fetch, sent + [cur]) == fetch(|sent| + 1, cur);
    StagnationStep(pages, pms);
    PagesReadExtend(fetch, sent, cur, pages, pms);
    DecodedEnding(fetch, sent, cur, pages, pms, end.value);
  }

  /** A decoded page that ends nothing: the next request is for the cursor it names. */
  lemma ContinueStep(fetch: (nat, string) -> Outcome, sent: seq<string>, cur: string, pages: seq<seq<Media>>, pms: seq<Media>,
                     allm0: Accumulator, allm: Accumulator, nx: string)
    requires Pending(fetch, sent, cur, pages, allm0) && |sent| + 1 < MaxPages
    requires fetch(|sent| + 1, cur).Decoded? && ListsPage(pms, fetch(|sent| + 1, cur).page)
    requires allm == Merge(allm0, pms) && Stagnation(pages + [pms]) < StagnantLimit
    requires nx == Cursors.Next(fetch(|sent| + 1, cur).page) && nx != [] && nx !in sent + [cur]
    ensures Pending(fetch, sent + [cur], nx, pages + [pms], allm)
  {
    assert LastOutcome(fetch, sent + [cur]) == fetch(|sent| + 1, cur);
    StagnationStep(pages, pms);
    PagesReadExtend(fetch, sent, cur, pages, pms);
    StagAtBelow(pages, pms);
    CursorsExtend(sent + [cur], nx);
    ChainedExtend(fetch, sent + [cur], nx);
  }

  /** The checks after a decoded page, in the order of `GetMediaLinksForUser`: stagnation,
      then the missing cursor, then the repeated cursor, then the page limit. `None` means
      the crawl goes on with the cursor `nx`. */
  method Stop(stg: nat, page: Value, seen: set<string>, pg: nat) returns (end: Option<EndReason>, nx: string)
    ensures nx == Cursors.Next(page)
    ensures end != Some(HttpError) && end != Some(ParseError)
    ensures end == Some(NoProgress) <==> stg >= StagnantLimit
    ensures end == Some(NoNextCursor) <==> stg < StagnantLimit && nx == []
    ensures end == Some(RepeatCursor) <==> stg < StagnantLimit && nx != [] && nx in seen
    ensures end == Some(MaxPagesReached) <==> stg < StagnantLimit && nx != [] && nx !in seen && pg >= MaxPages
    ensures end.None? <==> stg < StagnantLimit && nx != [] && nx !in seen && pg < MaxPages
  {
    nx := Cursors.Next(page);
    if stg >= StagnantLimit {
      return Some(NoProgress), nx;
    }
    if nx == [] {
      return Some(NoNextCursor), nx;
    }
    if nx in seen {
      return Some(RepeatCursor), nx;
    }
    if pg >= MaxPages {
      return Some(MaxPagesReached), nx;
    }
    return None, nx;
  }

  /** The loop of `GetMediaLinksForUser`. It returns the request-build error when there was
      one, else why it ended; the cursors it sent; the fold outputs it merged; and the
      accumulator. */
  method Crawl(fetch: (nat, string) -> Outcome)
    returns (buildError: Option<string>, end: Option<EndReason>, sent: seq<string>, ghost pages: seq<seq<Media>>, allm: Accumulator)
    ensures Reported(fetch, buildError, end, sent)
    ensures Crawled(fetch, buildError, end, sent, pages, allm)
  {
    var cur: string := [];
    var pg: nat := 1;
    var stg: nat := 0;
    var seen: set<string> := {[]};
    var ic: nat, vc: nat := 0, 0;
    sent, pages, allm := [], [], map[];
    while true
      invariant 1 <= pg <= MaxPages && |sent| == pg - 1
      invariant Pending(fetch, sent, cur, pages, allm)
      invariant forall x :: x in seen <==> x == [] || x in sent + [cur]
      invariant stg == Stagnation(pages)
      decreases MaxPages - pg
    {
      var outcome := fetch(pg, cur);
      if outcome.BuildFailed? {
        BuildExit(fetch, sent, cur, pages, allm, outcome);
        return Some(outcome.reason), None, sent + [cur], pages, allm;
      }
      if outcome.TransportFailed? {
        FailedExit(fetch, sent, cur, pages, allm, HttpError);
        return None, Some(HttpError), sent + [cur], pages, allm;
      }
      if outcome.Undecodable? {
        FailedExit(fetch, sent, cur, pages, allm, ParseError);
        return None, Some(ParseError), sent + [cur], pages, allm;
      }
      var pms := Fold(outcome.page);
      var prev := |allm|;
      ghost var allm0 := allm;
      allm, ic, vc := MergePage(allm, pms, ic, vc);
      StagnationStep(pages, pms);
      var now := |allm|;
      if now == prev {
        stg := stg + 1;
      } else {
        stg := 0;
      }
      var stop, nx := Stop(stg, outcome.page, seen, pg);
      if stop.Some? {
        DecodedExit(fetch, sent, cur, pages, pms, allm0, allm, stop, stg, nx, nx in seen, pg >= MaxPages);
        return None, stop, sent + [cur], pages + [pms], allm;
      }
      ContinueStep(fetch, sent, cur, pages, pms, allm0, allm, nx);
      seen := seen + {nx};
      sent, pages, cur := sent + [cur], pages + [pms], nx;
      pg := pg + 1;
    }
  }

  /** The accumulator's media in ascending URL order: exactly its records, each once. */
  ghost predicate SortedOutput(out: seq<Media>, allm: Accumulator)
  {
    && |out| == |allm|
    && (forall i :: 0 <= i < |out| ==> out[i].url in allm && allm[out[i].url] == out[i])
    && (forall u :: u in allm ==> exists i :: 0 <= i < |out| && out[i].url == u)
    && (forall i, j :: 0 <= i < j < |out| ==> Less(out[i].url, out[j].url))
  }

  /** The checks `GetMediaLinksForUser` makes before its first request all pass. */
  predicate Starts(hasClient: bool, cf: Config.EssentialsConfig?, uid: string)
    reads cf
  {
    hasClient && cf != null && uid != [] && Config.GraphQLURL(cf, "user_media").Success?
  }

  /** `GetMediaLinksForUser`; `hasClient` says whether an HTTP client was given. Only the
      argument checks, the endpoint lookup and a request that cannot be built give an error:
      a failed or undecodable page ends the crawl with what was gathered so far. */
  method GetMediaLinksForUser(hasClient: bool, cf: Config.EssentialsConfig?, uid: string, fetch: (nat, string) -> Outcome)
    returns (r: Result<seq<Media>, string>, end: Option<EndReason>, sent: seq<string>, ghost pages: seq<seq<Media>>)
    ensures !hasClient || cf == null ==> r == Failure("nil client or config") && sent == []
    ensures hasClient && cf != null && uid == [] ==> r == Failure("empty userID") && sent == []
    ensures hasClient && cf != null && uid != [] && Config.GraphQLURL(cf, "user_media").Failure? ==>
      r == Failure(Config.GraphQLURL(cf, "user_media").error) && sent == []
    ensures Starts(hasClient, cf, uid) ==>
      && CursorsOk(sent) && |sent| <= MaxPages
      && Chained(fetch, sent)
      && PagesRead(fetch, sent, pages)
      && (LastOutcome(fetch, sent).BuildFailed? ==>
            r == Failure("build request: " + LastOutcome(fetch, sent).reason) && end.None?)
      && (!LastOutcome(fetch, sent).BuildFailed? ==>
            r.Success? && end.Some? && Ending(fetch, sent, pages, end.value)
            && SortedOutput(r.value, MergeAll(pages)))
  {
    pages := [];
    if !hasClient || cf == null {
      return Failure("nil client or config"), None, [], pages;
    }
    if uid == [] {
      return Failure("empty userID"), None, [], pages;
    }
    var ep := Config.GraphQLURL(cf, "user_media");
    if ep.Failure? {
      return Failure(ep.error), None, [], pages;
    }
    var buildError, allm;
    buildError, end, sent, pages, allm := Crawl(fetch);
    if buildError.Some? {
      return Failure("build request: " + buildError.value), end, sent, pages;
    }
    MergeAllKeyed(pages);
    var out := SortedMedia(allm);
    r := Success(out);
  }

  /** The output list: the accumulator's records in the order of their sorted keys. */
  method SortedMedia(allm: Accumulator) returns (out: seq<Media>)
    requires KeyedByUrl(allm)
    ensures SortedOutput(out, allm)
  {
    var keys := Ordering.SortedKeys(allm);
    out := [];
    for i := 0 to |keys|
      invariant |out| == i
      invariant forall j :: 0 <= j < i ==> keys[j] in allm && out[j] == allm[keys[j]]
    {
      out := out + [allm[keys[i]]];
    }
    forall u | u in allm ensures exists i :: 0 <= i < |out| && out[i].url == u {
      var i :| 0 <= i < |keys| && keys[i] == u;
      assert out[i].url == u;
    }
  }

  /** A crawl issues at most 200 requests, and one whose 200th page still names a fresh
      cursor ends with `max_pages`. */
  lemma PageLimit(fetch: (nat, string) -> Outcome, sent: seq<string>, pages: seq<seq<Media>>, e: EndReason)
    requires CursorsOk(sent) && |sent| <= MaxPages && Ending(fetch, sent, pages, e)
    requires |sent| == MaxPages && LastOutcome(fetch, sent).Decoded?
    requires Stagnation(pages) < StagnantLimit
    requires Cursors.Next(LastOutcome(fetch, sent).page) != [] && Cursors.Next(LastOutcome(fetch, sent).page) !in sent
    ensures e == MaxPagesReached
  {
  }

  /** A crawl ends with `no_progress` only after three pages in a row that added nothing. */
  lemma NoProgressAfterThreeIdle(fetch: (nat, string) -> Outcome, sent: seq<string>, pages: seq<seq<Media>>)
    requires sent != [] && Ending(fetch, sent, pages, NoProgress)
    ensures |pages| >= StagnantLimit
    ensures forall k :: |pages| - StagnantLimit <= k < |pages| ==> Idle(pages, k)
  {
    StagnationCountsIdlePages(pages);
  }
}
