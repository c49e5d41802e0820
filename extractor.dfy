/** The media extractor of `internal/scraper/media.go`: a recursive walk over a decoded
    page that collects photo and video descriptors into an aggregation map keyed by media
    id (`walk`, `gather`), with the id rules (`mid`, `midFrom`), the CDN URL rewrite
    (`norm`) and the choice of the best MP4 variant (`best`), and `fold`, which turns the
    map into the page's list of media. */
module MediaExtractor {
  import opened Wrappers
  import opened Strings
  import opened Json
  import Urls

  /** `scraper.Media`: one downloadable item; `kind` is "image" or "video". */
  datatype Media = Media(url: string, kind: string)

  /** `mAgg`: what the aggregation map holds for one media id. */
  datatype Agg = Agg(url: string, kind: string, bitrate: int)

  type Aggregate = map<string, Agg>

  // ---------------------------------------------------------------------------
  // Ids: `mid` and `midFrom`

  function Digit(d: nat): char
    requires d < 10
  {
    ('0' as int + d) as char
  }

  predicate AllDigits(s: string)
  {
    forall i :: 0 <= i < |s| ==> '0' <= s[i] <= '9'
  }

  /** `strconv.FormatInt(n, 10)` for a non-negative `n`. */
  function FormatInt(n: nat): (s: string)
    ensures s != [] && AllDigits(s)
  {
    if n < 10 then [Digit(n)] else FormatInt(n / 10) + [Digit(n % 10)]
  }

  /** The number a string of decimal digits spells. */
  function DecimalValue(s: string): nat
    requires AllDigits(s)
  {
    if s == [] then 0 else DecimalValue(s[..|s| - 1]) * 10 + (s[|s| - 1] as int - '0' as int)
  }

  lemma {:induction false} FormatIntRoundTrip(n: nat)
    ensures DecimalValue(FormatInt(n)) == n
  {
    if n >= 10 {
      var s := FormatInt(n);
      assert s[..|s| - 1] == FormatInt(n / 10);
      FormatIntRoundTrip(n / 10);
    }
  }

  /** The number stored under `key`, when it is a number. */
  function NumberAt(m: seq<Field>, key: string): Option<int>
  {
    match Get(m, key)
    case Some(Number(n)) => Some(n)
    case _ => None
  }

  /** `mid`: the descriptor's own id. */
  function Mid(m: seq<Field>): string
  {
    if StrAt(m, "id_str") != [] then StrAt(m, "id_str")
    else if StrAt(m, "media_key") != [] then StrAt(m, "media_key")
    else match NumberAt(m, "id")
      case Some(n) => if n > 0 then FormatInt(n) else []
      case None => []
  }

  /** The file name of a path, up to its first '.', trimmed. */
  function Stem(path: string): (r: string)
    ensures '.' !in r
    ensures r == [] || (!IsSpace(r[0]) && !IsSpace(r[|r| - 1]))
  {
    var b := Before(Urls.PathBase(path), '.');
    TrimSpaceKeeps(b, {'.'});
    TrimSpace(b)
  }

  /** `midFrom`: the file-name stem of the image URL; "" for an empty or unparsable URL. */
  function MidFrom(u: string): (r: string)
    ensures u == [] || Urls.Parse(u).None? ==> r == []
    ensures u != [] && Urls.Parse(u).Some? ==> r == Stem(Urls.Path(Urls.Parse(u).value))
    ensures '.' !in r
    ensures r == [] || (!IsSpace(r[0]) && !IsSpace(r[|r| - 1]))
  {
    if u == [] then []
    else
      var pu := Urls.Parse(u);
      if pu.None? then [] else Stem(Urls.Path(pu.value))
  }

  /** For a URL whose path ends in "/" and a file name, the stem is the name up to its first
      '.', trimmed: "https://pbs.twimg.com/media/ABC.jpg" gives "ABC". */
  lemma MidFromName(w: Urls.Url, dir: string, name: string)
    requires Urls.Parsed(w) && Urls.Path(w) == dir + "/" + name && name != [] && '/' !in name
    ensures MidFrom(Urls.ToString(w)) == TrimSpace(Before(name, '.'))
  {
    Urls.ParseToString(w);
    var w' := w.(scheme := ToLower(w.scheme));
    assert Urls.Path(w') == Urls.Path(w);
    Urls.PathBaseName(dir, name);
    assert Urls.ToString(w) != [] by { Urls.ToStringParts(w); }
  }

  /** The id `gather` files a descriptor under; "" means the descriptor is skipped. */
  function DescriptorId(m: seq<Field>): string
  {
    if Mid(m) != [] then Mid(m) else MidFrom(StrAt(m, "media_url_https"))
  }

  predicate HasPositiveId(m: seq<Field>)
  {
    NumberAt(m, "id").Some? && NumberAt(m, "id").value > 0
  }

  /** The id falls back from `id_str` to `media_key` to a positive numeric `id` (spelled in
      decimal) to the URL's file stem, and it is empty only when all four are. */
  lemma IdPrecedence(m: seq<Field>)
    ensures StrAt(m, "id_str") != [] ==> DescriptorId(m) == StrAt(m, "id_str")
    ensures StrAt(m, "id_str") == [] && StrAt(m, "media_key") != [] ==> DescriptorId(m) == StrAt(m, "media_key")
    ensures StrAt(m, "id_str") == [] && StrAt(m, "media_key") == [] && HasPositiveId(m) ==>
      AllDigits(DescriptorId(m)) && DecimalValue(DescriptorId(m)) == NumberAt(m, "id").value
    ensures StrAt(m, "id_str") == [] && StrAt(m, "media_key") == [] && !HasPositiveId(m) ==>
      DescriptorId(m) == MidFrom(StrAt(m, "media_url_https"))
    ensures DescriptorId(m) == [] <==>
      StrAt(m, "id_str") == [] && StrAt(m, "media_key") == [] && !HasPositiveId(m)
      && MidFrom(StrAt(m, "media_url_https")) == []
  {
    if StrAt(m, "id_str") == [] && StrAt(m, "media_key") == [] && HasPositiveId(m) {
      FormatIntRoundTrip(NumberAt(m, "id").value);
    }
  }

  // ---------------------------------------------------------------------------
  // `norm`: ask the CDN for the original rendition

  predicate IsCdn(pu: Urls.Url)
  {
    Contains(ToLower(Urls.Host(pu)), "twimg.com")
  }

  /** `url.Values{format, name=orig}.Encode()`: keys in sorted order. */
  function NormQuery(format: string): string
  {
    if format != [] then "format=" + format + "&name=orig" else "name=orig"
  }

  function Norm(u: string): (r: string)
    ensures u == [] ==> r == []
    ensures Urls.Parse(u).None? ==> r == u
    ensures Urls.Parse(u).Some? && !IsCdn(Urls.Parse(u).value) ==> r == u
  {
    if u == [] then []
    else match Urls.Parse(u)
      case None => u
      case Some(pu) =>
        if !IsCdn(pu) then u
        else Urls.ToString(pu.(rawQuery := NormQuery(Urls.QueryValue(pu.rawQuery, "format"))))
  }

  lemma QueryValueChars(q: string, key: string)
    ensures '&' !in Urls.QueryValue(q, key) && ';' !in Urls.QueryValue(q, key)
    ensures forall c :: c in Urls.QueryValue(q, key) ==> c in q
    decreases |q|
  {
    if q != [] {
      var pair := Before(q, '&');
      var more := After(q, '&');
      Urls.CharsOfSplit(q, '&');
      Urls.CharsOfSplit(pair, '=');
      if ';' in pair || pair == [] || Before(pair, '=') != key {
        QueryValueChars(more, key);
      }
    }
  }

  /** `url.ParseQuery` looks at its first pair and, when the key differs, at the rest. */
  lemma QueryHead(pair: string, more: string, key: string)
    requires pair != [] && '&' !in pair && ';' !in pair
    ensures Urls.QueryValue(pair + ['&'] + more, key)
      == if Before(pair, '=') == key then After(pair, '=') else Urls.QueryValue(more, key)
  {
    Urls.SplitAt(pair, '&', more);
  }

  lemma QueryLast(pair: string, key: string)
    requires pair != [] && '&' !in pair && ';' !in pair
    ensures Urls.QueryValue(pair, key) == if Before(pair, '=') == key then After(pair, '=') else []
  {
    Urls.SplitNone(pair, '&');
  }

  lemma NameOrig()
    ensures forall k :: Urls.QueryValue("name=orig", k) == if k == "name" then "orig" else []
  {
    var p := "name" + ['='] + "orig";
    assert p == "name=orig";
    Urls.SplitAt("name", '=', "orig");
    forall k ensures Urls.QueryValue(p, k) == if k == "name" then "orig" else [] {
      QueryLast(p, k);
    }
  }

  lemma FormatPair(f: string)
    requires '&' !in f && ';' !in f
    ensures var p := "format" + ['='] + f;
      p != [] && '&' !in p && ';' !in p && Before(p, '=') == "format" && After(p, '=') == f
  {
    Urls.SplitAt("format", '=', f);
  }

  lemma NormQueryValue(f: string, k: string)
    requires '&' !in f && ';' !in f
    ensures Urls.QueryValue(NormQuery(f), k) == if k == "format" then f else if k == "name" then "orig" else []
  {
    NameOrig();
    if f != [] {
      var p := "format" + ['='] + f;
      FormatPair(f);
      assert NormQuery(f) == p + ['&'] + "name=orig";
      QueryHead(p, "name=orig", k);
    }
  }

  /** The rebuilt query holds the given format (when there is one), name=orig, and nothing else. */
  lemma NormQueryValues(f: string)
    requires '&' !in f && ';' !in f
    ensures Urls.QueryValue(NormQuery(f), "format") == f
    ensures Urls.QueryValue(NormQuery(f), "name") == "orig"
    ensures forall k :: k != "format" && k != "name" ==> Urls.QueryValue(NormQuery(f), k) == []
  {
    NormQueryValue(f, "format");
    NormQueryValue(f, "name");
    forall k | k != "format" && k != "name" ensures Urls.QueryValue(NormQuery(f), k) == [] {
      NormQueryValue(f, k);
    }
  }

  lemma NormQueryChars(f: string)
    requires !Urls.HasControl(f) && '#' !in f
    ensures !Urls.HasControl(NormQuery(f)) && '#' !in NormQuery(f)
  {
    var head, tail := "format=", "&name=orig";
    assert !Urls.HasControl(head) && !Urls.HasControl(tail) && !Urls.HasControl("name=orig");
    if f != [] {
      assert NormQuery(f) == head + (f + tail);
      Urls.NoControlConcat(f, tail);
      Urls.NoControlConcat(head, f + tail);
    }
  }

  /** Putting the rebuilt query into a parsed URL keeps it a parse result. */
  lemma NormTargetParsed(pu: Urls.Url, f: string)
    requires Urls.Parsed(pu)
    requires forall c :: c in f ==> c in pu.rawQuery
    ensures Urls.Parsed(pu.(rawQuery := NormQuery(f)))
  {
    Urls.NoControlPart(pu.rawQuery, f);
    NormQueryChars(f);
  }

  /** For a CDN URL, `norm` yields a URL that parses to the same scheme (lower-cased), the
      same authority and path and the same fragment, whose query carries only the original
      `format` value (when there was one) and `name=orig`. */
  lemma NormCdn(u: string)
    requires u != [] && Urls.Parse(u).Some? && IsCdn(Urls.Parse(u).value)
    ensures Urls.Parse(Norm(u)).Some?
    ensures Urls.Parse(Norm(u)).value == Urls.Url(ToLower(Urls.Parse(u).value.scheme), Urls.Parse(u).value.rest,
      NormQuery(Urls.QueryValue(Urls.Parse(u).value.rawQuery, "format")), Urls.Parse(u).value.fragment)
    ensures Urls.QueryValue(Urls.Parse(Norm(u)).value.rawQuery, "format")
      == Urls.QueryValue(Urls.Parse(u).value.rawQuery, "format")
    ensures Urls.QueryValue(Urls.Parse(Norm(u)).value.rawQuery, "name") == "orig"
    ensures forall k :: k != "format" && k != "name" ==> Urls.QueryValue(Urls.Parse(Norm(u)).value.rawQuery, k) == []
  {
    var pu := Urls.Parse(u).value;
    var f := Urls.QueryValue(pu.rawQuery, "format");
    Urls.ParseGivesParsed(u);
    QueryValueChars(pu.rawQuery, "format");
    NormTargetParsed(pu, f);
    var w := pu.(rawQuery := NormQuery(f));
    assert Norm(u) == Urls.ToString(w);
    Urls.ParseToString(w);
    NormQueryValues(f);
  }

  /** Normalising twice is the same as normalising once. */
  lemma NormIdempotent(u: string)
    ensures Norm(Norm(u)) == Norm(u)
  {
    if u != [] && Urls.Parse(u).Some? && IsCdn(Urls.Parse(u).value) {
      var pu := Urls.Parse(u).value;
      NormCdn(u);
      var v := Norm(u);
      var nu := Urls.Parse(v).value;
      assert Urls.Host(nu) == Urls.Host(pu);
      Urls.ParseGivesParsed(u);
      Urls.ParseGivesParsed(v);
      if pu.scheme != [] {
        Urls.ToLowerScheme(pu.scheme);
      }
      assert nu.(rawQuery := NormQuery(Urls.QueryValue(nu.rawQuery, "format"))) == nu;
      assert ToLower(nu.scheme) == nu.scheme;
      assert Urls.ToString(nu) == v;
    }
  }

  // ---------------------------------------------------------------------------
  // `best`: the highest-bitrate MP4 variant, the first on ties

  predicate Qualifies(v: Value)
  {
    v.Object?
    && Contains(ToLower(StrAt(v.fields, "content_type")), "video/mp4")
    && StrAt(v.fields, "url") != []
  }

  function VariantUrl(v: Value): string
  {
    if v.Object? then StrAt(v.fields, "url") else []
  }

  /** The declared bitrate; a missing or non-numeric one counts as 0. */
  function VariantBitrate(v: Value): int
  {
    if v.Object? then
      match NumberAt(v.fields, "bitrate")
      case Some(n) => n
      case None => 0
    else 0
  }

  /** `video_info.variants`, or nothing when either level is missing or mistyped. */
  function Variants(m: seq<Field>): seq<Value>
  {
    match Get(m, "video_info")
    case Some(Object(vi)) =>
      (match Get(vi, "variants")
       case Some(Array(vs)) => vs
       case _ => [])
    case _ => []
  }

  /** The loop state of `best` (`u`, `br`) after the variants `vs`, from ("", -1). */
  function Scan(vs: seq<Value>): (string, int)
  {
    if vs == [] then ([], -1)
    else
      var (u, br) := Scan(vs[..|vs| - 1]);
      var v := vs[|vs| - 1];
      if Qualifies(v) && VariantBitrate(v) > br then (VariantUrl(v), VariantBitrate(v)) else (u, br)
  }

  function BestOf(m: seq<Field>): (string, int)
  {
    var (u, br) := Scan(Variants(m));
    if u == [] then ([], 0) else (u, br)
  }

  method Best(m: seq<Field>) returns (u: string, br: int)
    ensures (u, br) == BestOf(m)
  {
    var vs := Variants(m);
    u, br := [], -1;
    var i := 0;
    while i < |vs|
      invariant 0 <= i <= |vs|
      invariant (u, br) == Scan(vs[..i])
    {
      var v := vs[i];
      ScanNext(vs, i);
      if Qualifies(v) {
        var b := VariantBitrate(v);
        if b > br {
          br := b;
          u := VariantUrl(v);
        }
      }
      i := i + 1;
    }
    assert vs[..|vs|] == vs;
    if u == [] {
      u, br := [], 0;
    }
  }

  lemma ScanNext(vs: seq<Value>, i: nat)
    requires i < |vs|
    ensures Scan(vs[..i + 1]) ==
      if Qualifies(vs[i]) && VariantBitrate(vs[i]) > Scan(vs[..i]).1
      then (VariantUrl(vs[i]), VariantBitrate(vs[i])) else Scan(vs[..i])
  {
    assert vs[..i + 1][..i] == vs[..i];
  }

  /** Variant `i` is the one `best` picks: qualifying, of maximal bitrate, the first such. */
  ghost predicate ChosenAt(vs: seq<Value>, i: int, u: string, br: int)
  {
    && 0 <= i < |vs| && Qualifies(vs[i]) && VariantUrl(vs[i]) == u && VariantBitrate(vs[i]) == br
    && (forall j :: 0 <= j < |vs| && Qualifies(vs[j]) ==> VariantBitrate(vs[j]) <= br)
    && (forall j :: 0 <= j < i && Qualifies(vs[j]) ==> VariantBitrate(vs[j]) < br)
  }

  ghost predicate NoneNonNegative(vs: seq<Value>)
  {
    forall j :: 0 <= j < |vs| && Qualifies(vs[j]) ==> VariantBitrate(vs[j]) < 0
  }

  /** What `best`'s loop state means after the variants `vs`. */
  ghost predicate ScanOk(vs: seq<Value>, u: string, br: int)
  {
    || (u == [] && br == -1 && NoneNonNegative(vs))
    || (br >= 0 && exists i :: ChosenAt(vs, i, u, br))
  }

  lemma ChosenExtend(vs: seq<Value>, v: Value, i: int, u: string, br: int)
    requires ChosenAt(vs, i, u, br)
    requires !(Qualifies(v) && VariantBitrate(v) > br)
    ensures ChosenAt(vs + [v], i, u, br)
  {
    var ws := vs + [v];
    forall j | 0 <= j < |ws| && Qualifies(ws[j]) ensures VariantBitrate(ws[j]) <= br {
      if j < |vs| { assert ws[j] == vs[j]; }
    }
  }

  lemma ChosenLast(vs: seq<Value>, v: Value, br0: int)
    requires Qualifies(v) && VariantBitrate(v) > br0
    requires forall j :: 0 <= j < |vs| && Qualifies(vs[j]) ==> VariantBitrate(vs[j]) <= br0
    ensures ChosenAt(vs + [v], |vs|, VariantUrl(v), VariantBitrate(v))
  {
    var ws := vs + [v];
    forall j | 0 <= j < |vs| ensures ws[j] == vs[j] { }
  }

  lemma NoneExtend(vs: seq<Value>, v: Value)
    requires NoneNonNegative(vs)
    requires !(Qualifies(v) && VariantBitrate(v) > -1)
    ensures NoneNonNegative(vs + [v])
  {
    var ws := vs + [v];
    forall j | 0 <= j < |ws| && Qualifies(ws[j]) ensures VariantBitrate(ws[j]) < 0 {
      if j < |vs| { assert ws[j] == vs[j]; }
    }
  }

  lemma {:induction false} ScanChoice(vs: seq<Value>)
    ensures ScanOk(vs, Scan(vs).0, Scan(vs).1)
  {
    if vs != [] {
      var p := vs[..|vs| - 1];
      var v := vs[|vs| - 1];
      assert vs == p + [v];
      ScanChoice(p);
      var u0, br0 := Scan(p).0, Scan(p).1;
      if Qualifies(v) && VariantBitrate(v) > br0 {
        if br0 >= 0 {
          var i :| ChosenAt(p, i, u0, br0);
        }
        ChosenLast(p, v, br0);
      } else if br0 >= 0 {
        var i :| ChosenAt(p, i, u0, br0);
        ChosenExtend(p, v, i, u0, br0);
      } else {
        NoneExtend(p, v);
      }
    }
  }

  /** `best` returns the URL and bitrate of the first variant of maximal bitrate among those
      whose content type contains video/mp4 and whose URL is set; it returns ("", 0) when no
      such variant has a bitrate of 0 or more (a negative bitrate never beats the initial -1). */
  lemma BestChoice(m: seq<Field>)
    ensures var vs := Variants(m);
      var (u, br) := BestOf(m);
      && (u == [] <==> forall j :: 0 <= j < |vs| && Qualifies(vs[j]) ==> VariantBitrate(vs[j]) < 0)
      && (u == [] ==> br == 0)
      && (u != [] ==> br >= 0 && exists i :: ChosenAt(vs, i, u, br))
  {
    var vs := Variants(m);
    ScanChoice(vs);
  }

  // ---------------------------------------------------------------------------
  // `gather`: fold one `extended_entities.media` array into the aggregation map

  function TypeOf(m: seq<Field>): string
  {
    ToLower(StrAt(m, "type"))
  }

  predicate IsVideoType(t: string)
  {
    t == "video" || t == "animated_gif"
  }

  /** The effect of one element of the media array on the aggregation map. */
  function GatherStep(ag: Aggregate, it: Value): Aggregate
  {
    if !it.Object? then ag
    else
      var m := it.fields;
      var id := DescriptorId(m);
      if id == [] then ag
      else if TypeOf(m) == "photo" then PhotoStep(ag, id, m)
      else if IsVideoType(TypeOf(m)) then VideoStep(ag, id, m)
      else ag
  }

  /** A photo stores its normalised URL unconditionally. */
  function PhotoStep(ag: Aggregate, id: string, m: seq<Field>): Aggregate
  {
    var u := Norm(StrAt(m, "media_url_https"));
    if u == [] then ag else ag[id := Agg(u, "image", 0)]
  }

  /** A video replaces what is stored only with a strictly higher bitrate. */
  function VideoStep(ag: Aggregate, id: string, m: seq<Field>): Aggregate
  {
    var (u, br) := BestOf(m);
    if u == [] then ag
    else if id !in ag || br > ag[id].bitrate then ag[id := Agg(u, "video", br)]
    else ag
  }

  function GatherFrom(ag: Aggregate, arr: seq<Value>): Aggregate
    decreases |arr|
  {
    if arr == [] then ag else GatherFrom(GatherStep(ag, arr[0]), arr[1..])
  }

  /** `n["extended_entities"].(map)["media"].([]any)`, or nothing. */
  function MediaList(n: seq<Field>): seq<Value>
  {
    match Get(n, "extended_entities")
    case Some(Object(ee)) =>
      (match Get(ee, "media")
       case Some(Array(arr)) => arr
       case _ => [])
    case _ => []
  }

  method Gather(n: seq<Field>, ag: Aggregate) returns (r: Aggregate)
    ensures r == GatherFrom(ag, MediaList(n))
  {
    var arr := MediaList(n);
    r := ag;
    var i := 0;
    while i < |arr|
      invariant 0 <= i <= |arr|
      invariant GatherFrom(r, arr[i..]) == GatherFrom(ag, arr)
    {
      assert arr[i..][1..] == arr[i + 1..];
      var it := arr[i];
      i := i + 1;
      if !it.Object? {
        continue;
      }
      var m := it.fields;
      var typ := TypeOf(m);
      var id := Mid(m);
      if id == [] {
        id := MidFrom(StrAt(m, "media_url_https"));
      }
      if id == [] {
        continue;
      }
      if typ == "photo" {
        var u := Norm(StrAt(m, "media_url_https"));
        if u == [] {
          continue;
        }
        r := r[id := Agg(u, "image", 0)];
      } else if typ == "video" || typ == "animated_gif" {
        var u, br := Best(m);
        if u == [] {
          continue;
        }
        if id !in r || br > r[id].bitrate {
          r := r[id := Agg(u, "video", br)];
        }
      }
    }
    assert arr[|arr|..] == [];
  }

  /** Every entry of the map has a URL, and is an image of bitrate 0 or a video of a
      non-negative bitrate; no entry is filed under the empty id. */
  ghost predicate WellFormed(ag: Aggregate)
  {
    && [] !in ag
    && forall id :: id in ag ==>
         && ag[id].url != []
         && ((ag[id].kind == "image" && ag[id].bitrate == 0) || (ag[id].kind == "video" && ag[id].bitrate >= 0))
  }

  lemma GatherStepWellFormed(ag: Aggregate, it: Value)
    requires WellFormed(ag)
    ensures WellFormed(GatherStep(ag, it))
  {
    if it.Object? {
      var id := DescriptorId(it.fields);
      if id != [] {
        if TypeOf(it.fields) == "photo" {
          PhotoStepWellFormed(ag, id, it.fields);
        } else {
          VideoStepWellFormed(ag, id, it.fields);
        }
      }
    }
  }

  lemma PhotoStepWellFormed(ag: Aggregate, id: string, m: seq<Field>)
    requires WellFormed(ag) && id != []
    ensures WellFormed(PhotoStep(ag, id, m))
  {
  }

  lemma VideoStepWellFormed(ag: Aggregate, id: string, m: seq<Field>)
    requires WellFormed(ag) && id != []
    ensures WellFormed(VideoStep(ag, id, m))
  {
    BestNonNegative(m);
  }

  /** A chosen variant never has a negative bitrate. */
  lemma BestNonNegative(m: seq<Field>)
    ensures BestOf(m).0 != [] ==> BestOf(m).1 >= 0
  {
    BestChoice(m);
  }

  lemma {:induction false} GatherFromWellFormed(ag: Aggregate, arr: seq<Value>)
    requires WellFormed(ag)
    ensures WellFormed(GatherFrom(ag, arr))
    decreases |arr|
  {
    if arr != [] {
      GatherStepWellFormed(ag, arr[0]);
      GatherFromWellFormed(GatherStep(ag, arr[0]), arr[1..]);
    }
  }

  /** The descriptor `it` is filed under `id`. */
  predicate Touches(it: Value, id: string)
  {
    it.Object? && DescriptorId(it.fields) == id
  }

  /** The descriptor `it` is a photo that stores `u` under `id`. */
  predicate WritesPhoto(it: Value, id: string, u: string)
  {
    && Touches(it, id) && id != [] && TypeOf(it.fields) == "photo"
    && u != [] && Norm(StrAt(it.fields, "media_url_https")) == u
  }

  /** The descriptor `it` is a video or animated GIF under `id` with a usable variant. */
  predicate WritesVideo(it: Value, id: string)
  {
    Touches(it, id) && id != [] && IsVideoType(TypeOf(it.fields)) && BestOf(it.fields).0 != []
  }

  /** A descriptor filed under another id leaves `id`'s entry alone. */
  lemma GatherStepFrame(ag: Aggregate, it: Value, id: string)
    requires !Touches(it, id)
    ensures id in GatherStep(ag, it) <==> id in ag
    ensures id in ag ==> GatherStep(ag, it)[id] == ag[id]
  {
    if it.Object? {
      var d := DescriptorId(it.fields);
      if d != [] {
        if TypeOf(it.fields) == "photo" {
          PhotoStepFrame(ag, d, it.fields, id);
        } else if IsVideoType(TypeOf(it.fields)) {
          VideoStepFrame(ag, d, it.fields, id);
        }
      }
    }
  }

  lemma PhotoStepFrame(ag: Aggregate, d: string, m: seq<Field>, id: string)
    requires d != id
    ensures id in PhotoStep(ag, d, m) <==> id in ag
    ensures id in ag ==> PhotoStep(ag, d, m)[id] == ag[id]
  {
  }

  lemma VideoStepFrame(ag: Aggregate, d: string, m: seq<Field>, id: string)
    requires d != id
    ensures id in VideoStep(ag, d, m) <==> id in ag
    ensures id in ag ==> VideoStep(ag, d, m)[id] == ag[id]
  {
  }

  lemma {:induction false} GatherFromFrame(ag: Aggregate, arr: seq<Value>, id: string)
    requires forall j :: 0 <= j < |arr| ==> !Touches(arr[j], id)
    ensures id in GatherFrom(ag, arr) <==> id in ag
    ensures id in ag ==> GatherFrom(ag, arr)[id] == ag[id]
    decreases |arr|
  {
    if arr != [] {
      GatherStepFrame(ag, arr[0], id);
      GatherFromFrame(GatherStep(ag, arr[0]), arr[1..], id);
    }
  }

  /** A photo overwrites whatever its id held: the last photo filed under an id wins, when
      nothing after it in the array is filed under that id. */
  lemma {:induction false} LastPhotoWins(ag: Aggregate, arr: seq<Value>, i: nat, id: string, u: string)
    requires i < |arr| && WritesPhoto(arr[i], id, u)
    requires forall j :: i < j < |arr| ==> !Touches(arr[j], id)
    ensures id in GatherFrom(ag, arr) && GatherFrom(ag, arr)[id] == Agg(u, "image", 0)
    decreases |arr|
  {
    var next := GatherStep(ag, arr[0]);
    if i == 0 {
      GatherFromFrame(next, arr[1..], id);
    } else {
      LastPhotoWins(next, arr[1..], i - 1, id, u);
    }
  }

  /** Without a photo for `id`, a step never lowers the bitrate stored under `id`. */
  lemma GatherStepKeepsBitrate(ag: Aggregate, it: Value, id: string)
    requires !(Touches(it, id) && TypeOf(it.fields) == "photo")
    requires id in ag
    ensures id in GatherStep(ag, it) && GatherStep(ag, it)[id].bitrate >= ag[id].bitrate
  {
    if it.Object? {
      var d := DescriptorId(it.fields);
      if d != [] {
        if TypeOf(it.fields) == "photo" {
          PhotoStepFrame(ag, d, it.fields, id);
        } else if IsVideoType(TypeOf(it.fields)) {
          if d == id {
            assert id in VideoStep(ag, d, it.fields);
          } else {
            VideoStepFrame(ag, d, it.fields, id);
          }
        }
      }
    }
  }

  /** A video descriptor whose best variant exists leaves an entry at least as good. */
  lemma GatherStepVideo(ag: Aggregate, it: Value)
    requires it.Object? && DescriptorId(it.fields) != [] && IsVideoType(TypeOf(it.fields))
    requires BestOf(it.fields).0 != []
    ensures var id := DescriptorId(it.fields);
      id in GatherStep(ag, it) && GatherStep(ag, it)[id].bitrate >= BestOf(it.fields).1
  {
  }

  /** A video is replaced only by a strictly higher bitrate: within one media array holding no
      photo for `id`, the entry for `id` ends with a bitrate at least that of the entry it
      started with and at least that of every video filed under `id`. */
  lemma {:induction false} VideoKeepsMax(ag: Aggregate, arr: seq<Value>, id: string)
    requires forall j :: 0 <= j < |arr| ==> !(Touches(arr[j], id) && TypeOf(arr[j].fields) == "photo")
    ensures id in ag ==> id in GatherFrom(ag, arr) && GatherFrom(ag, arr)[id].bitrate >= ag[id].bitrate
    ensures forall j :: 0 <= j < |arr| && WritesVideo(arr[j], id) ==>
              id in GatherFrom(ag, arr) && GatherFrom(ag, arr)[id].bitrate >= BestOf(arr[j].fields).1
    decreases |arr|
  {
    if arr != [] {
      var next := GatherStep(ag, arr[0]);
      VideoKeepsMax(next, arr[1..], id);
      if id in ag {
        GatherStepKeepsBitrate(ag, arr[0], id);
      }
      forall j | 0 <= j < |arr| && WritesVideo(arr[j], id)
        ensures id in GatherFrom(ag, arr) && GatherFrom(ag, arr)[id].bitrate >= BestOf(arr[j].fields).1
      {
        if j == 0 {
          GatherStepVideo(ag, arr[0]);
        } else {
          assert arr[1..][j - 1] == arr[j];
        }
      }
    }
  }

  // ---------------------------------------------------------------------------
  // `walk`: visit every object and array of the page

  /** What `walk` gathers at an object itself: the media of its "legacy" object, then its
      own media when it has "extended_entities". */
  function Own(ag: Aggregate, fs: seq<Field>): Aggregate
  {
    var ag1 := match Get(fs, "legacy")
               case Some(Object(leg)) => GatherFrom(ag, MediaList(leg))
               case _ => ag;
    if Get(fs, "extended_entities").Some? then GatherFrom(ag1, MediaList(fs)) else ag1
  }

  method WalkOwn(fs: seq<Field>, ag: Aggregate) returns (r: Aggregate)
    ensures r == Own(ag, fs)
  {
    r := ag;
    var leg := Get(fs, "legacy");
    if leg.Some? && leg.value.Object? {
      r := Gather(leg.value.fields, r);
    }
    if Get(fs, "extended_entities").Some? {
      r := Gather(fs, r);
    }
  }

  lemma OwnWellFormed(ag: Aggregate, fs: seq<Field>)
    requires WellFormed(ag)
    ensures WellFormed(Own(ag, fs))
  {
    var ag1 := match Get(fs, "legacy")
               case Some(Object(leg)) => GatherFrom(ag, MediaList(leg))
               case _ => ag;
    match Get(fs, "legacy") {
      case Some(Object(leg)) => GatherFromWellFormed(ag, MediaList(leg));
      case _ =>
    }
    GatherFromWellFormed(ag1, MediaList(fs));
  }

  function WalkSpec(ag: Aggregate, v: Value): Aggregate
    decreases v, 1, 0
  {
    match v
    case Object(fs) => WalkFields(Own(ag, fs), v, 0)
    case Array(_) => WalkItems(ag, v, 0)
    case _ => ag
  }

  function WalkFields(ag: Aggregate, v: Value, i: nat): Aggregate
    requires v.Object?
    decreases v, 0, |v.fields| - i
  {
    if i >= |v.fields| then ag else WalkFields(WalkSpec(ag, v.fields[i].value), v, i + 1)
  }

  function WalkItems(ag: Aggregate, v: Value, i: nat): Aggregate
    requires v.Array?
    decreases v, 0, |v.items| - i
  {
    if i >= |v.items| then ag else WalkItems(WalkSpec(ag, v.items[i]), v, i + 1)
  }

  method Walk(v: Value, ag: Aggregate) returns (r: Aggregate)
    ensures r == WalkSpec(ag, v)
    decreases v
  {
    match v {
      case Object(fs) =>
        r := WalkOwn(fs, ag);
        var i := 0;
        while i < |fs|
          invariant 0 <= i <= |fs|
          invariant WalkFields(r, v, i) == WalkSpec(ag, v)
        {
          r := Walk(fs[i].value, r);
          i := i + 1;
        }
      case Array(items) =>
        r := ag;
        var i := 0;
        while i < |items|
          invariant 0 <= i <= |items|
          invariant WalkItems(r, v, i) == WalkSpec(ag, v)
        {
          r := Walk(items[i], r);
          i := i + 1;
        }
      case _ =>
        r := ag;
    }
  }

  lemma {:induction false} WalkWellFormed(ag: Aggregate, v: Value)
    requires WellFormed(ag)
    ensures WellFormed(WalkSpec(ag, v))
    decreases v, 1, 0
  {
    match v
    case Object(fs) =>
      OwnWellFormed(ag, fs);
      WalkFieldsWellFormed(Own(ag, fs), v, 0);
    case Array(_) => WalkItemsWellFormed(ag, v, 0);
    case _ =>
  }

  lemma {:induction false} WalkFieldsWellFormed(ag: Aggregate, v: Value, i: nat)
    requires v.Object? && WellFormed(ag)
    ensures WellFormed(WalkFields(ag, v, i))
    decreases v, 0, |v.fields| - i
  {
    if i < |v.fields| {
      WalkWellFormed(ag, v.fields[i].value);
      WalkFieldsWellFormed(WalkSpec(ag, v.fields[i].value), v, i + 1);
    }
  }

  lemma {:induction false} WalkItemsWellFormed(ag: Aggregate, v: Value, i: nat)
    requires v.Array? && WellFormed(ag)
    ensures WellFormed(WalkItems(ag, v, i))
    decreases v, 0, |v.items| - i
  {
    if i < |v.items| {
      WalkWellFormed(ag, v.items[i]);
      WalkItemsWellFormed(WalkSpec(ag, v.items[i]), v, i + 1);
    }
  }

  // ---------------------------------------------------------------------------
  // `fold`: the page's media

  /** The aggregation map a page yields. */
  function Extract(v: Value): Aggregate
  {
    WalkSpec(map[], v)
  }

  function ToMedia(a: Agg): Media
  {
    Media(a.url, a.kind)
  }

  /** The media of a page, as a set: `fold` returns them in map order, which Go leaves unspecified. */
  function PageMedia(v: Value): set<Media>
  {
    set k | k in Extract(v) :: ToMedia(Extract(v)[k])
  }

  /** The ids of `ag`, among `ids`, that hold the record `m`. */
  ghost function Holding(ag: Aggregate, ids: set<string>, m: Media): set<string>
  {
    set k | k in ids && k in ag && ToMedia(ag[k]) == m
  }

  /** How many ids of the aggregation carry the media record `m`: `fold` lists one record per id. */
  ghost function Multiplicity(ag: Aggregate, m: Media): nat
  {
    |Holding(ag, ag.Keys, m)|
  }

  /** One more id adds one to the count of its own record and nothing to the others. */
  lemma HoldingStep(ag: Aggregate, ids: set<string>, k: string, m: Media)
    requires k in ag && k !in ids
    ensures |Holding(ag, ids + {k}, m)| == |Holding(ag, ids, m)| + (if ToMedia(ag[k]) == m then 1 else 0)
  {
    if ToMedia(ag[k]) == m {
      assert Holding(ag, ids + {k}, m) == Holding(ag, ids, m) + {k};
    } else {
      assert Holding(ag, ids + {k}, m) == Holding(ag, ids, m);
    }
  }

  /** Taking the id `k` out of the ids still to list. */
  lemma FoldStep(ag: Aggregate, left: set<string>, k: string)
    requires left <= ag.Keys && k in left
    ensures forall m ::
              |Holding(ag, ag.Keys - (left - {k}), m)| == |Holding(ag, ag.Keys - left, m)| + (if ToMedia(ag[k]) == m then 1 else 0)
  {
    assert ag.Keys - (left - {k}) == (ag.Keys - left) + {k};
    forall m ensures |Holding(ag, (ag.Keys - left) + {k}, m)| ==
      |Holding(ag, ag.Keys - left, m)| + (if ToMedia(ag[k]) == m then 1 else 0) {
      HoldingStep(ag, ag.Keys - left, k, m);
    }
  }

  /** A record is listed exactly when some id holds it. */
  lemma CountedMembers(pms: seq<Media>, ag: Aggregate)
    requires forall m :: multiset(pms)[m] == Multiplicity(ag, m)
    ensures forall m :: m in pms <==> exists k :: k in ag && ToMedia(ag[k]) == m
  {
    forall m ensures m in pms <==> exists k :: k in ag && ToMedia(ag[k]) == m {
      assert m in pms <==> multiset(pms)[m] > 0;
      if exists k :: k in ag && ToMedia(ag[k]) == m {
        var k :| k in ag && ToMedia(ag[k]) == m;
        assert k in Holding(ag, ag.Keys, m);
      }
    }
  }

  /** `fold`: one media record per aggregated id, in an unspecified order. */
  method Fold(v: Value) returns (pms: seq<Media>)
    ensures |pms| == |Extract(v)|
    ensures forall m :: m in pms <==> m in PageMedia(v)
    ensures forall m :: multiset(pms)[m] == Multiplicity(Extract(v), m)
  {
    var ag := Walk(v, map[]);
    pms := [];
    var left := ag.Keys;
    while left != {}
      invariant left <= ag.Keys
      invariant |pms| + |left| == |ag|
      invariant forall m :: multiset(pms)[m] == |Holding(ag, ag.Keys - left, m)|
      decreases |left|
    {
      var k :| k in left;
      FoldStep(ag, left, k);
      pms := pms + [ToMedia(ag[k])];
      left := left - {k};
    }
    assert ag.Keys - left == ag.Keys;
    CountedMembers(pms, ag);
  }

  /** Every media item of a page has a URL and is an image or a video. */
  lemma PageMediaWellFormed(v: Value)
    ensures forall m :: m in PageMedia(v) ==> m.url != [] && (m.kind == "image" || m.kind == "video")
  {
    WalkWellFormed(map[], v);
  }
}
